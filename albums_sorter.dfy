/**
 * Sorter/AlbumsSorter.py: the stand-alone version of the sorter.  Its parser
 * indexes every property strictly, it keeps a map from album name to page,
 * its repair stage sorts by `rating or 0`, and `_compact_ratings` takes the
 * width from its caller.
 */
module AlbumsSorter {
  import opened Wrappers
  import opened Pages
  import opened Labels
  import opened Ranking

  /** What `_parse_album_data` reads from one page. */
  datatype Fields = Fields(name: string, artist: string, rating: Option<nat>, status: string)

  /** The rating an album starts with: the parsed number, or unrated. */
  function InitialRating(rating: Option<nat>): (r: Rating)
    ensures RankOf(r) == rating && !r.Label?
  {
    if rating.Some? then Num(rating.value) else Unrated
  }

  /** An album; only `rating` is ever written after construction. */
  class Album {
    const name: string
    const artist: string
    var rating: Rating
    const status: string
    const page: Page

    constructor (f: Fields, page: Page)
      ensures Holds(f) && this.page == page
    {
      name, artist, status := f.name, f.artist, f.status;
      rating := InitialRating(f.rating);
      this.page := page;
    }

    /** `is_listened` */
    predicate IsListened()
    {
      status == "Listened"
    }

    /** `is_rated` */
    predicate IsRated()
      reads this
    {
      !rating.Unrated?
    }

    /** This album holds the fields `f`, with the rating freshly parsed. */
    predicate Holds(f: Fields)
      reads this
    {
      name == f.name && artist == f.artist && status == f.status && rating == InitialRating(f.rating)
    }
  }

  /** `d['name'] if d and d['name'] else 'Unknown'` on a select or status value. */
  function NameOrUnknown(s: Select): (r: string)
    requires !s.Absent?
    ensures r == "Unknown" || (s.Choice? && r == s.name)
    ensures s.Choice? && s.name != "" ==> r == s.name
  {
    if s.Choice? && s.name != "" then s.name else "Unknown"
  }

  /**
   * `_parse_album_data` on one page.  The `Album`, `Alex Top`, `Artist` and
   * `Status` properties are indexed directly, so a page missing any of them
   * raises `KeyError`, as does a title whose first segment is not text.
   */
  function ParseAlbum(page: Page): (r: Result<Fields, ParseError>)
    ensures r.Failure? <==>
      || page.title.None?
      || (page.title.value != [] && page.title.value[0].OtherSegment?)
      || page.alexTop.Absent? || page.artist.Absent? || page.status.Absent?
    ensures r.Success? ==>
      && (page.title.value == [] ==> r.value.name == "Untitled")
      && (page.title.value != [] ==> r.value.name == page.title.value[0].content)
      && r.value.rating == RankLabel(page.alexTop)
      && (r.value.rating.Some? <==> page.alexTop.Choice? && IsDigits(page.alexTop.name))
      && r.value.artist == NameOrUnknown(page.artist) && r.value.status == NameOrUnknown(page.status)
      && (r.value.artist == "Unknown" <==> !page.artist.Choice? || page.artist.name in {"", "Unknown"})
      && (r.value.status == "Unknown" <==> !page.status.Choice? || page.status.name in {"", "Unknown"})
  {
    if page.title.None? then Failure(MissingKey("Album"))
    else if page.title.value != [] && page.title.value[0].OtherSegment? then Failure(MissingKey("text"))
    else if page.alexTop.Absent? then Failure(MissingKey("Alex Top"))
    else if page.artist.Absent? then Failure(MissingKey("Artist"))
    else if page.status.Absent? then Failure(MissingKey("Status"))
    else
      var titles := page.title.value;
      var name := if titles == [] then "Untitled" else titles[0].content;
      Success(Fields(name, NameOrUnknown(page.artist), RankLabel(page.alexTop), NameOrUnknown(page.status)))
  }

  /** A page whose `Alex Top` holds the padded label of `k` parses back to rating `k`. */
  lemma ParseReadsPaddedLabel(page: Page, k: nat, width: nat)
    requires page.alexTop == Choice(Pad(k, width))
    requires ParseAlbum(page).Success?
    ensures ParseAlbum(page).value.rating == Some(k)
  {
    PadRoundTrip(k, width);
  }

  /**
   * The key `_create_page_map` files a page under: the first title segment's
   * text, when the title is non-empty and that segment is text.
   */
  function TitleKey(page: Page): (r: Option<string>)
    requires page.title.Some?
    ensures r.Some? <==> page.title.value != [] && page.title.value[0].TextSegment?
  {
    var t := page.title.value;
    if t != [] && t[0].TextSegment? then Some(t[0].content) else None
  }

  predicate AllTitled(results: seq<Page>)
  {
    forall i :: 0 <= i < |results| ==> results[i].title.Some?
  }

  /** The name-to-page map of `results`, filed in order so that later pages win. */
  function PageMapOf(results: seq<Page>): map<string, Page>
    requires AllTitled(results)
  {
    if results == [] then map[]
    else
      var m := PageMapOf(results[..|results| - 1]);
      var last := results[|results| - 1];
      var key := TitleKey(last);
      if key.Some? then m[key.value := last] else m
  }

  /** A name is a key of the map exactly when some page is filed under it. */
  lemma {:induction false} PageMapKeys(results: seq<Page>, k: string)
    requires AllTitled(results)
    ensures k in PageMapOf(results) <==> exists i :: 0 <= i < |results| && TitleKey(results[i]) == Some(k)
  {
    if results != [] {
      var init := results[..|results| - 1];
      PageMapKeys(init, k);
      if k in PageMapOf(init) {
        var i :| 0 <= i < |init| && TitleKey(init[i]) == Some(k);
        assert results[i] == init[i];
      }
      if exists i :: 0 <= i < |results| && TitleKey(results[i]) == Some(k) {
        var i :| 0 <= i < |results| && TitleKey(results[i]) == Some(k);
        if i < |init| {
          assert init[i] == results[i];
        }
      }
    }
  }

  /**
   * The page a name maps to is the last page filed under that name: a later
   * page with the same name replaces an earlier one.
   */
  lemma {:induction false} PageMapLastWins(results: seq<Page>, k: string) returns (i: nat)
    requires AllTitled(results) && k in PageMapOf(results)
    ensures i < |results| && TitleKey(results[i]) == Some(k) && PageMapOf(results)[k] == results[i]
    ensures forall j :: i < j < |results| ==> TitleKey(results[j]) != Some(k)
  {
    var init := results[..|results| - 1];
    var last := results[|results| - 1];
    if TitleKey(last) == Some(k) {
      i := |results| - 1;
    } else {
      i := PageMapLastWins(init, k);
      assert results[i] == init[i];
    }
  }

  /**
   * `_create_page_map`: every page with a text-headed title is filed under
   * its name.  A page without the `Album` property raises `KeyError`.
   */
  method CreatePageMap(results: seq<Page>) returns (r: Result<map<string, Page>, ParseError>)
    ensures r.Failure? <==> !AllTitled(results)
    ensures r.Success? ==> AllTitled(results) && r.value == PageMapOf(results)
  {
    var pageMap: map<string, Page> := map[];
    var n := 0;
    while n < |results|
      invariant 0 <= n <= |results| && AllTitled(results[..n])
      invariant pageMap == PageMapOf(results[..n])
    {
      var result := results[n];
      if result.title.None? {
        return Failure(MissingKey("Album"));
      }
      assert results[..n + 1][..n] == results[..n];
      var title := result.title.value;
      if title != [] && title[0].TextSegment? {
        pageMap := pageMap[title[0].content := result];
      }
      n := n + 1;
    }
    assert results[..n] == results;
    r := Success(pageMap);
  }

  /**
   * `_parse_album_data`: one new album per page, in page order.  The first
   * page the parser rejects aborts the loop.
   */
  method ParseAlbumData(results: seq<Page>) returns (r: Result<seq<Album>, ParseError>)
    ensures r.Failure? <==> exists i :: 0 <= i < |results| && ParseAlbum(results[i]).Failure?
    ensures r.Success? ==>
      && |r.value| == |results| && Distinct(r.value)
      && forall i :: 0 <= i < |results| ==>
           fresh(r.value[i]) && r.value[i].page == results[i] && r.value[i].Holds(ParseAlbum(results[i]).value)
  {
    var albums: seq<Album> := [];
    var i := 0;
    while i < |results|
      invariant 0 <= i <= |results| && |albums| == i && Distinct(albums)
      invariant forall j :: 0 <= j < i ==> ParseAlbum(results[j]).Success?
      invariant forall j :: 0 <= j < i ==>
                  fresh(albums[j]) && albums[j].page == results[j] && albums[j].Holds(ParseAlbum(results[j]).value)
    {
      var parsed := ParseAlbum(results[i]);
      if parsed.Failure? {
        return Failure(parsed.error);
      }
      var album := new Album(parsed.value, results[i]);
      assert forall j :: 0 <= j < i ==> albums[j] != album;
      albums := albums + [album];
      i := i + 1;
    }
    r := Success(albums);
  }

  /** The albums of `s` that were listened to, in order. */
  function Listened(s: seq<Album>): (r: seq<Album>)
    ensures forall i :: 0 <= i < |r| ==> r[i] in s && r[i].IsListened()
    ensures forall i :: 0 <= i < |s| && s[i].IsListened() ==> s[i] in r
  {
    if s == [] then []
    else
      var rest := Listened(s[1..]);
      assert s == [s[0]] + s[1..];
      if s[0].IsListened() then [s[0]] + rest else rest
  }
  /** The listened albums are drawn from `s` without repetition of their own. */
  lemma {:induction false} ListenedMultiset(s: seq<Album>)
    ensures multiset(Listened(s)) <= multiset(s)
  {
    if s != [] {
      ListenedMultiset(s[1..]);
      assert s == [s[0]] + s[1..];
    }
  }


  /** Each album paired with its numeric rank, if any. */
  function Entries(s: seq<Album>): (r: seq<(Album, Option<nat>)>)
    reads s
    ensures Items(r) == s
  {
    seq(|s|, i requires 0 <= i < |s| reads s => (s[i], RankOf(s[i].rating)))
  }

  /** Each album paired with `rating or 0`, the key of the repair stage. */
  function Keyed(s: seq<Album>): (r: seq<(Album, nat)>)
    reads s
    ensures Items(r) == s
  {
    seq(|s|, i requires 0 <= i < |s| reads s => (s[i], RatingOrZero(s[i].rating)))
  }

  /** Each album paired with the rank its page's `Alex Top` label carries. */
  function PageEntries(s: seq<Album>): (r: seq<(Album, Option<nat>)>)
    ensures Items(r) == s
  {
    seq(|s|, i requires 0 <= i < |s| => (s[i], RankLabel(s[i].page.alexTop)))
  }

  /**
   * Sorting albums by `rating or 0` keeps them distinct and pairs each with
   * its own key.
   */
  lemma SortedKeyed(albums: seq<Album>)
    requires Distinct(albums)
    ensures var es := SortStable(Keyed(albums));
      && Distinct(Items(es))
      && forall k :: 0 <= k < |es| ==> es[k].0 in albums && RatingOrZero(es[k].0.rating) == es[k].1
  {
    var es := SortStable(Keyed(albums));
    SortStableCorrect(Keyed(albums));
    DistinctSub(Items(es), albums);
    forall k | 0 <= k < |es| ensures es[k].0 in albums && RatingOrZero(es[k].0.rating) == es[k].1 {
      assert es[k] in multiset(Keyed(albums));
      var j :| 0 <= j < |albums| && Keyed(albums)[j] == es[k];
    }
  }

  /**
   * `_ensure_unique_ratings`: returns the albums stably sorted by
   * `rating or 0` and repairs the keys left to right.  A rating is written
   * only when the key is bumped, so an unrated album whose key 0 needs no
   * bump stays unrated.
   */
  method EnsureUniqueRatings(albums: seq<Album>) returns (sorted: seq<Album>)
    requires Distinct(albums)
    requires forall i :: 0 <= i < |albums| ==> !albums[i].rating.Label?
    modifies albums
    ensures forall i :: 0 <= i < |sorted| ==> old(allocated(sorted[i]))
    ensures var es := SortStable(old(Keyed(albums)));
      && sorted == Items(es)
      && (forall i :: 0 <= i < |sorted| && Bump(Keys(es))[i] != es[i].1 ==> sorted[i].rating == Num(Bump(Keys(es))[i]))
      && (forall i :: 0 <= i < |sorted| && Bump(Keys(es))[i] == es[i].1 ==> sorted[i].rating == old(sorted[i].rating))
    ensures (forall i :: 0 <= i < |albums| ==> old(albums[i].rating).Num?) ==>
      forall i :: 0 <= i < |sorted| ==> sorted[i].rating == Num(Bump(Keys(SortStable(old(Keyed(albums)))))[i])
  {
    if albums == [] {
      return albums;
    }
    var es := SortStable(Keyed(albums));
    SortedKeyed(albums);
    sorted := Items(es);
    RepairRanks(sorted, Keys(es));
    forall i | 0 <= i < |sorted| && (forall j :: 0 <= j < |albums| ==> old(albums[j].rating).Num?)
      ensures sorted[i].rating == Num(Bump(Keys(es))[i])
    {
      var j :| 0 <= j < |albums| && albums[j] == sorted[i];
    }
  }

  /**
   * The repair loop of `_ensure_unique_ratings` over albums already sorted
   * by their keys `ks`: each key becomes `max(key, previous + 1)`, and the
   * album's rating is overwritten only when its key was raised.
   */
  method RepairRanks(sorted: seq<Album>, ghost ks: seq<nat>)
    requires Distinct(sorted) && |ks| == |sorted|
    requires forall k :: 0 <= k < |sorted| ==> RatingOrZero(sorted[k].rating) == ks[k]
    modifies sorted
    ensures forall k :: 0 <= k < |sorted| ==>
              sorted[k].rating == (if Bump(ks)[k] == ks[k] then old(sorted[k].rating) else Num(Bump(ks)[k]))
  {
    if sorted == [] {
      return;
    }
    BumpAt(ks, 0);
    var last := RatingOrZero(sorted[0].rating);
    var i := 1;
    while i < |sorted|
      invariant 1 <= i <= |sorted| && last == Bump(ks)[i - 1]
      invariant forall k :: 0 <= k < i ==>
                  sorted[k].rating == (if Bump(ks)[k] == ks[k] then old(sorted[k].rating) else Num(Bump(ks)[k]))
      invariant forall k :: i <= k < |sorted| ==> sorted[k].rating == old(sorted[k].rating)
    {
      BumpAt(ks, i);
      var current := RatingOrZero(sorted[i].rating);
      if current <= last {
        last := last + 1;
        sorted[i].rating := Num(last);
      } else {
        last := current;
      }
      i := i + 1;
    }
  }

  /** `_assign_default_ratings`: the i-th album, in list order, gets `starting_rating + i`. */
  method AssignDefaultRatings(albums: seq<Album>, start: nat)
    requires Distinct(albums)
    modifies albums
    ensures forall i :: 0 <= i < |albums| ==> albums[i].rating == Num(start + i)
  {
    var i := 0;
    while i < |albums|
      invariant 0 <= i <= |albums|
      invariant forall k :: 0 <= k < i ==> albums[k].rating == Num(start + k)
    {
      albums[i].rating := Num(start + i);
      i := i + 1;
    }
  }

  /** `_format_ratings`: every numeric rating becomes its decimal, zero-padded to `length`. */
  method FormatRatings(albums: seq<Album>, length: nat)
    requires Distinct(albums)
    requires forall i :: 0 <= i < |albums| ==> albums[i].rating.Num?
    modifies albums
    ensures forall i :: 0 <= i < |albums| ==>
              old(albums[i].rating).Num? && albums[i].rating == Label(Pad(old(albums[i].rating).n, length))
  {
    var i := 0;
    while i < |albums|
      invariant 0 <= i <= |albums|
      invariant forall k :: 0 <= k < i ==> albums[k].rating == Label(Pad(old(albums[k].rating).n, length))
      invariant forall k :: i <= k < |albums| ==> albums[k].rating == old(albums[k].rating)
    {
      albums[i].rating := Label(Pad(albums[i].rating.n, length));
      i := i + 1;
    }
  }

  /** `_compact_ratings`: the i-th album (counting from 1) gets the label of `i` at the given width. */
  method CompactRatings(albums: seq<Album>, length: nat)
    requires Distinct(albums)
    modifies albums
    ensures forall i :: 0 <= i < |albums| ==> albums[i].rating == Label(Pad(i + 1, length))
  {
    var i := 0;
    while i < |albums|
      invariant 0 <= i <= |albums|
      invariant forall k :: 0 <= k < i ==> albums[k].rating == Label(Pad(k + 1, length))
    {
      albums[i].rating := Label(Pad(i + 1, length));
      i := i + 1;
    }
  }
  /**
   * The listened albums split as `process_albums` splits them by
   * `is_rated`: the rated ones hold their number, the unrated ones hold
   * nothing, no album is in both lists, and each list keeps the albums
   * distinct.
   */
  lemma EntriesParts(s: seq<Album>)
    requires Distinct(s)
    requires forall i :: 0 <= i < |s| ==> !s[i].rating.Label?
    ensures var rated, unrated := Items(RatedPart(Entries(s))), UnratedPart(Entries(s));
      && Distinct(rated) && Distinct(unrated)
      && Keyed(rated) == RatedPart(Entries(s))
      && (forall j :: 0 <= j < |rated| ==> rated[j] in s && rated[j].rating.Num? && rated[j].IsRated())
      && (forall k :: 0 <= k < |unrated| ==> unrated[k] in s && unrated[k].rating == Unrated && !unrated[k].IsRated())
      && (forall j, k :: 0 <= j < |rated| && 0 <= k < |unrated| ==> rated[j] != unrated[k])
  {
    var es := Entries(s);
    var rated, unrated := RatedPart(es), UnratedPart(es);
    assert Distinct(Items(rated)) && Distinct(unrated) by {
      PartsDistinct(es);
    }
    forall j | 0 <= j < |rated| ensures rated[j].0 in s && rated[j].0.rating == Num(rated[j].1) {
      var i :| 0 <= i < |es| && es[i] == (rated[j].0, Some(rated[j].1));
    }
    forall k | 0 <= k < |unrated| ensures unrated[k] in s && unrated[k].rating == Unrated {
      var i :| 0 <= i < |es| && es[i] == (unrated[k], None);
    }
  }

  /** The keys of albums holding the ranks `ks` are `ks`. */
  lemma KeyedRanks(s: seq<Album>, ks: seq<nat>)
    requires |s| == |ks| && forall i :: 0 <= i < |s| ==> s[i].rating == Num(ks[i])
    ensures Keys(Keyed(s)) == ks
  {
  }

  /**
   * After the repair and default stages, the albums of `rated + unrated`
   * are those of `Merged`, in its order, and hold its ranks.
   */
  lemma StagesMerged(es: seq<(Album, Option<nat>)>, sortedRated: seq<Album>, unrated: seq<Album>)
    requires sortedRated == Items(SortStable(RatedPart(es)))
    requires forall i :: 0 <= i < |sortedRated| ==>
               sortedRated[i].rating == Num(Bump(Keys(SortStable(RatedPart(es))))[i])
    requires unrated == UnratedPart(es)
    requires forall k :: 0 <= k < |unrated| ==>
               unrated[k].rating == Num(MaxOr0(Bump(Keys(SortStable(RatedPart(es))))) + 1 + k)
    ensures var final := sortedRated + unrated;
      && |final| == |Merged(es)| && final == Items(Merged(es))
      && (forall i :: 0 <= i < |final| ==> final[i].rating == Num(Merged(es)[i].1))
      && Keyed(final) == Merged(es)
  {
    ghost var rs := SortStable(RatedPart(es));
    ghost var b := Bump(Keys(rs));
    MergedSplit(es, rs, b, unrated);
    var n := |sortedRated|;
    assert n == |rs|;
    forall i | 0 <= i < |sortedRated + unrated|
      ensures (sortedRated + unrated)[i].rating == Num(Merged(es)[i].1)
    {
      if i < n {
        assert (sortedRated + unrated)[i] == sortedRated[i];
      } else {
        assert (sortedRated + unrated)[i] == unrated[i - n];
      }
    }
  }

  /**
   * The formatting step of `process_albums`: on a non-empty list holding the
   * ranks of `plan`, every rating becomes its label at the width chosen
   * from the last rank and the count.
   */
  method FormatPlan(final: seq<Album>, ghost plan: seq<(Album, nat)>)
    requires final == Items(plan) && Distinct(final)
    requires forall i :: 0 <= i < |final| ==> final[i].rating == Num(plan[i].1)
    modifies final
    ensures forall i :: 0 <= i < |final| ==> final[i].rating == Label(Pad(plan[i].1, PlanWidth(plan)))
  {
    if final == [] {
      return;
    }
    var maxRating := final[|final| - 1].rating.n;
    var length := if maxRating > 99 || |final| > 99 then 3 else 2;
    FormatRatings(final, length);
  }

  /**
   * Stages 2 to 5 of `process_albums` on the listened albums: split, repair
   * the rated ones, default the unrated ones, concatenate and sort.  The
   * albums end up in the order, and with the numeric ranks, of `Merged`.
   */
  method RankListened(listened: seq<Album>) returns (final: seq<Album>)
    requires Distinct(listened)
    requires forall i :: 0 <= i < |listened| ==> !listened[i].rating.Label?
    modifies listened
    ensures var plan := Merged(old(Entries(listened)));
      && |final| == |plan| && final == Items(plan)
      && forall i :: 0 <= i < |final| ==> final[i].rating == Num(plan[i].1)
  {
    ghost var es := Entries(listened);
    var rated := Items(RatedPart(Entries(listened)));
    var unrated := UnratedPart(Entries(listened));
    EntriesParts(listened);
    final := RankParts(rated, unrated, es);
    assert SortStable(Keyed(final)) == Merged(es) by {
      NormalizeShape(es);
    }
    final := Items(SortStable(Keyed(final)));
  }

  /**
   * Stages 3 and 4 of `process_albums`: repair the ranks of the rated
   * albums, number the unrated ones on from the highest, and concatenate.
   */
  method RankParts(rated: seq<Album>, unrated: seq<Album>, ghost es: seq<(Album, Option<nat>)>)
      returns (merged: seq<Album>)
    requires Distinct(rated) && Distinct(unrated)
    requires forall j, k :: 0 <= j < |rated| && 0 <= k < |unrated| ==> rated[j] != unrated[k]
    requires forall j :: 0 <= j < |rated| ==> rated[j].rating.Num?
    requires Keyed(rated) == RatedPart(es) && unrated == UnratedPart(es)
    modifies rated, unrated
    ensures merged == Items(Merged(es)) && Keyed(merged) == Merged(es)
    ensures forall i :: 0 <= i < |merged| ==> merged[i].rating == Num(Merged(es)[i].1)
  {
    ghost var rp := RatedPart(es);
    var sorted := EnsureUniqueRatings(rated);
    assert forall i :: 0 <= i < |sorted| ==> sorted[i] !in unrated by {
      SortedApart(rp, unrated);
    }
    var highest := MaxOr0(Keys(Keyed(sorted)));
    assert highest == MaxOr0(Bump(Keys(SortStable(rp)))) by {
      KeyedRanks(sorted, Bump(Keys(SortStable(rp))));
    }
    AssignDefaultRatings(unrated, highest + 1);
    merged := sorted + unrated;
    StagesMerged(es, sorted, unrated);
  }


  /**
   * The manager state: the album list and the name-to-page map that
   * `fetch_and_parse_albums` fills.  The client library handle is not
   * modelled.
   */
  class NotionAlbumManager {
    const dbId: string
    var albums: seq<Album>
    var pageMap: map<string, Page>

    constructor (dbId: string)
      ensures this.dbId == dbId && albums == [] && pageMap == map[]
    {
      this.dbId := dbId;
      albums := [];
      pageMap := map[];
    }

    /**
     * `fetch_and_parse_albums` over the fetched `results`: the page map is
     * built and stored first, then the albums are parsed and stored.  A
     * `KeyError` in the first step changes nothing; one in the second leaves
     * the new map in place and the old albums.
     */
    method FetchAndParse(results: seq<Page>) returns (r: Result<(), ParseError>)
      modifies this
      ensures AllTitled(results) ==> pageMap == PageMapOf(results)
      ensures !AllTitled(results) ==> pageMap == old(pageMap)
      ensures r.Success? <==> AllTitled(results) && forall i :: 0 <= i < |results| ==> ParseAlbum(results[i]).Success?
      ensures r.Failure? ==> albums == old(albums)
      ensures r.Success? ==>
        && |albums| == |results| && Distinct(albums)
        && forall i :: 0 <= i < |results| ==>
             fresh(albums[i]) && albums[i].page == results[i] && albums[i].Holds(ParseAlbum(results[i]).value)
    {
      var m := CreatePageMap(results);
      if m.Failure? {
        return Failure(m.error);
      }
      pageMap := m.value;
      var parsed := ParseAlbumData(results);
      if parsed.Failure? {
        return Failure(parsed.error);
      }
      albums := parsed.value;
      r := Success(());
    }

    /**
     * `process_albums` on the manager's albums: the listened albums, ordered
     * and ranked as the normaliser says, each rating replaced by the rank's
     * zero-padded label at the width chosen from the last rank and the
     * count.  Nothing listened gives the empty list.  Only listened albums
     * are written.
     */
    method ProcessAlbums() returns (final: seq<Album>)
      requires Distinct(albums)
      requires forall i :: 0 <= i < |albums| && albums[i].IsListened() ==> !albums[i].rating.Label?
      modifies Listened(albums)
      ensures var plan := NormalizeSpec(old(Entries(Listened(albums))));
        && final == Items(plan)
        && forall i :: 0 <= i < |final| ==> final[i].rating == Label(Pad(plan[i].1, PlanWidth(plan)))
      ensures Distinct(final) && forall i :: 0 <= i < |final| ==> final[i] in old(albums) && final[i].IsListened()
    {
      var all := albums;
      var listened := Listened(all);
      ghost var es := Entries(listened);
      ghost var plan := NormalizeSpec(es);
      assert plan == Merged(es) by {
        NormalizeShape(es);
      }
      assert Distinct(listened) by {
        ListenedMultiset(all);
        DistinctSub(listened, all);
      }
      final := RankListened(listened);
      assert Distinct(final) && forall i :: 0 <= i < |final| ==> final[i] in listened by {
        NormalizeMembers(es);
      }
      assert forall i :: 0 <= i < |final| ==> final[i] in all && final[i].IsListened();
      FormatPlan(final, plan);
    }
  }

  /** Right after a fetch, every album holds the rank its page's label carries. */
  lemma FetchedEntries(albums: seq<Album>)
    requires forall i :: 0 <= i < |albums| ==> albums[i].rating == InitialRating(RankLabel(albums[i].page.alexTop))
    ensures Entries(Listened(albums)) == PageEntries(Listened(albums))
    ensures forall i :: 0 <= i < |albums| && albums[i].IsListened() ==> !albums[i].rating.Label?
  {
    var listened := Listened(albums);
    forall i | 0 <= i < |listened| ensures RankOf(listened[i].rating) == RankLabel(listened[i].page.alexTop) {
      var j :| 0 <= j < |albums| && albums[j] == listened[i];
    }
  }

  /**
   * One pass of the loop in `main`, with the fetch injected as `results`,
   * the user's d/c answer as `compact` and the write-back left to the
   * caller: fetch and parse, process, skip when nothing is listened, and
   * otherwise compact when asked, at a width taken from the count alone.
   * The result is the list whose labels would be written.
   */
  method MainPass(manager: NotionAlbumManager, results: seq<Page>, compact: bool) returns (r: Result<seq<Album>, ParseError>)
    modifies manager
    ensures r.Success? <==> AllTitled(results) && forall i :: 0 <= i < |results| ==> ParseAlbum(results[i]).Success?
    ensures AllTitled(results) ==> manager.pageMap == PageMapOf(results)
    ensures !AllTitled(results) ==> manager.pageMap == old(manager.pageMap)
    ensures r.Failure? ==> manager.albums == old(manager.albums)
    ensures r.Success? ==>
      && |manager.albums| == |results|
      && (forall i :: 0 <= i < |results| ==>
            && manager.albums[i].page == results[i]
            && manager.albums[i].name == ParseAlbum(results[i]).value.name
            && manager.albums[i].artist == ParseAlbum(results[i]).value.artist
            && manager.albums[i].status == ParseAlbum(results[i]).value.status)
      && var plan := NormalizeSpec(PageEntries(Listened(manager.albums)));
         && r.value == Items(plan)
         && forall i :: 0 <= i < |plan| ==>
              r.value[i].rating == Label(if compact then Pad(i + 1, CompactWidth(|plan|))
                                         else Pad(plan[i].1, PlanWidth(plan)))
  {
    var fetched := manager.FetchAndParse(results);
    if fetched.Failure? {
      return Failure(fetched.error);
    }
    var all := manager.albums;
    ghost var pageMap := manager.pageMap;
    assert forall i :: 0 <= i < |results| ==>
      && all[i].page == results[i]
      && all[i].name == ParseAlbum(results[i]).value.name
      && all[i].artist == ParseAlbum(results[i]).value.artist
      && all[i].status == ParseAlbum(results[i]).value.status
      && all[i].rating == InitialRating(RankLabel(all[i].page.alexTop));
    var finalList := ProcessPass(manager, compact);
    assert manager.albums == all && manager.pageMap == pageMap;
    r := Success(finalList);
  }

  /**
   * The rest of the pass once the albums are parsed: `process_albums`, then,
   * unless it found nothing, `_compact_ratings` when the user chose compact,
   * at width 3 past 99 albums and 2 otherwise.
   */
  method ProcessPass(manager: NotionAlbumManager, compact: bool) returns (finalList: seq<Album>)
    requires Distinct(manager.albums)
    requires forall i :: 0 <= i < |manager.albums| ==>
               manager.albums[i].rating == InitialRating(RankLabel(manager.albums[i].page.alexTop))
    modifies Listened(manager.albums)
    ensures var plan := NormalizeSpec(PageEntries(Listened(manager.albums)));
      && finalList == Items(plan)
      && forall i :: 0 <= i < |plan| ==>
           finalList[i].rating == Label(if compact then Pad(i + 1, CompactWidth(|plan|))
                                        else Pad(plan[i].1, PlanWidth(plan)))
  {
    var all := manager.albums;
    FetchedEntries(all);
    ghost var plan := NormalizeSpec(PageEntries(Listened(all)));
    finalList := manager.ProcessAlbums();
    assert manager.albums == all;
    assert finalList == Items(plan) && |finalList| == |plan|;
    if finalList != [] && compact {
      var length := if |finalList| > 99 then 3 else 2;
      CompactRatings(finalList, length);
    }
  }
}
