/**
 * src/managers/sorter.py: the rank stages of `AlbumSorter`, each writing
 * `rating` on the shared `Album` objects in place, and `process_albums`,
 * which chains them.  Every stage is proved against the pure normaliser in
 * module `Ranking`.
 */
module Sorter {
  import opened Wrappers
  import opened Pages
  import opened Labels
  import opened Ranking
  import opened Base

  /**
   * `_ensure_unique_ratings` on albums that all hold a number: returns the
   * same albums stably sorted by rating and rewrites the ratings to the
   * repaired ranks, the first unchanged and each later one
   * `max(own, previous + 1)`.
   */
  method EnsureUniqueRatings(albums: seq<Album>) returns (sorted: seq<Album>)
    requires Distinct(albums)
    requires forall i :: 0 <= i < |albums| ==> albums[i].rating.Num?
    modifies albums
    ensures var es := SortStable(old(Keyed(albums)));
      && sorted == Items(es)
      && forall i :: 0 <= i < |sorted| ==> sorted[i].rating == Num(Bump(Keys(es))[i])
  {
    if albums == [] {
      return albums;
    }
    var es := SortStable(Keyed(albums));
    SortedKeyed(albums);
    sorted := Items(es);
    RepairRanks(sorted, Keys(es));
  }

  /**
   * The repair loop of `_ensure_unique_ratings` over albums already sorted
   * by their ranks `ks`: each rank becomes `max(rank, previous + 1)`.
   */
  method RepairRanks(sorted: seq<Album>, ghost ks: seq<nat>)
    requires Distinct(sorted) && |ks| == |sorted|
    requires forall k :: 0 <= k < |sorted| ==> sorted[k].rating == Num(ks[k])
    modifies sorted
    ensures forall k :: 0 <= k < |sorted| ==> sorted[k].rating == Num(Bump(ks)[k])
  {
    if sorted == [] {
      return;
    }
    BumpAt(ks, 0);
    var last := sorted[0].rating.n;
    var i := 1;
    while i < |sorted|
      invariant 1 <= i <= |sorted| && last == Bump(ks)[i - 1]
      invariant forall k :: 0 <= k < i ==> sorted[k].rating == Num(Bump(ks)[k])
      invariant forall k :: i <= k < |sorted| ==> sorted[k].rating == Num(ks[k])
    {
      BumpAt(ks, i);
      if sorted[i].rating.n <= last {
        last := last + 1;
        sorted[i].rating := Num(last);
      } else {
        last := sorted[i].rating.n;
      }
      i := i + 1;
    }
  }

  /**
   * Sorting albums that all hold a number by that number keeps them distinct
   * and pairs each with its own rating.
   */
  lemma SortedKeyed(albums: seq<Album>)
    requires Distinct(albums)
    requires forall i :: 0 <= i < |albums| ==> albums[i].rating.Num?
    ensures var es := SortStable(Keyed(albums));
      && Distinct(Items(es))
      && forall k :: 0 <= k < |es| ==> es[k].0 in albums && es[k].0.rating == Num(es[k].1)
  {
    var es := SortStable(Keyed(albums));
    SortStableCorrect(Keyed(albums));
    DistinctSub(Items(es), albums);
    forall k | 0 <= k < |es| ensures es[k].0 in albums && es[k].0.rating == Num(es[k].1) {
      assert es[k] in multiset(Keyed(albums));
      var j :| 0 <= j < |albums| && Keyed(albums)[j] == es[k];
    }
  }

  /** `_assign_default_ratings`: the i-th album, in list order, gets rating `start + i`. */
  method AssignDefaultRatings(albums: seq<Album>, start: nat)
    requires Distinct(albums)
    modifies albums
    ensures forall i :: 0 <= i < |albums| ==> albums[i].rating == Num(start + i)
  {
    var i := 0;
    while i < |albums|
      invariant 0 <= i <= |albums|
      invariant forall k :: 0 <= k < i ==> albums[k].rating == Num(start + k)
    {
      albums[i].rating := Num(start + i);
      i := i + 1;
    }
  }

  /** `_format_ratings`: every numeric rating becomes its decimal, zero-padded to `length`. */
  method FormatRatings(albums: seq<Album>, length: nat)
    requires Distinct(albums)
    requires forall i :: 0 <= i < |albums| ==> albums[i].rating.Num?
    modifies albums
    ensures forall i :: 0 <= i < |albums| ==>
              old(albums[i].rating).Num? && albums[i].rating == Label(Pad(old(albums[i].rating).n, length))
  {
    var i := 0;
    while i < |albums|
      invariant 0 <= i <= |albums|
      invariant forall k :: 0 <= k < i ==> albums[k].rating == Label(Pad(old(albums[k].rating).n, length))
      invariant forall k :: i <= k < |albums| ==> albums[k].rating == old(albums[k].rating)
    {
      albums[i].rating := Label(Pad(albums[i].rating.n, length));
      i := i + 1;
    }
  }

  /**
   * `_compact_ratings`: the i-th album (counting from 1) gets the label of
   * `i`, padded to 3 digits past 99 albums and to 2 otherwise.  An empty list
   * is returned as it is.
   */
  method CompactRatings(albums: seq<Album>)
    requires Distinct(albums)
    modifies albums
    ensures forall i :: 0 <= i < |albums| ==> albums[i].rating == Label(Pad(i + 1, CompactWidth(|albums|)))
  {
    if albums == [] {
      return;
    }
    var length := if |albums| > 99 then 3 else 2;
    var i := 0;
    while i < |albums|
      invariant 0 <= i <= |albums|
      invariant forall k :: 0 <= k < i ==> albums[k].rating == Label(Pad(k + 1, length))
    {
      albums[i].rating := Label(Pad(i + 1, length));
      i := i + 1;
    }
  }

  /**
   * The listened albums split as `process_albums` splits them by
   * `is_rated`: the rated ones hold their number, the unrated ones hold
   * nothing, no album is in both lists, and each list keeps the albums
   * distinct.
   */
  lemma EntriesParts(s: seq<Album>)
    requires Distinct(s)
    requires forall i :: 0 <= i < |s| ==> !s[i].rating.Label?
    ensures var rated, unrated := Items(RatedPart(Entries(s))), UnratedPart(Entries(s));
      && Distinct(rated) && Distinct(unrated)
      && Keyed(rated) == RatedPart(Entries(s))
      && (forall j :: 0 <= j < |rated| ==> rated[j] in s && rated[j].rating.Num? && rated[j].IsRated())
      && (forall k :: 0 <= k < |unrated| ==> unrated[k] in s && unrated[k].rating == Unrated && !unrated[k].IsRated())
      && (forall j, k :: 0 <= j < |rated| && 0 <= k < |unrated| ==> rated[j] != unrated[k])
  {
    var es := Entries(s);
    var rated, unrated := RatedPart(es), UnratedPart(es);
    assert Distinct(Items(rated)) && Distinct(unrated) by {
      PartsDistinct(es);
    }
    forall j | 0 <= j < |rated| ensures rated[j].0 in s && rated[j].0.rating == Num(rated[j].1) {
      var i :| 0 <= i < |es| && es[i] == (rated[j].0, Some(rated[j].1));
    }
    forall k | 0 <= k < |unrated| ensures unrated[k] in s && unrated[k].rating == Unrated {
      var i :| 0 <= i < |es| && es[i] == (unrated[k], None);
    }
  }

  /** The keys of albums holding the ranks `ks` are `ks`. */
  lemma KeyedRanks(s: seq<Album>, ks: seq<nat>)
    requires |s| == |ks| && forall i :: 0 <= i < |s| ==> s[i].rating == Num(ks[i])
    ensures Keys(Keyed(s)) == ks
  {
  }

  /**
   * After the repair and default stages, the albums of `rated + unrated`
   * are those of `Merged`, in its order, and hold its ranks.
   */
  lemma StagesMerged(es: seq<(Album, Option<nat>)>, sortedRated: seq<Album>, unrated: seq<Album>)
    requires sortedRated == Items(SortStable(RatedPart(es)))
    requires forall i :: 0 <= i < |sortedRated| ==>
               sortedRated[i].rating == Num(Bump(Keys(SortStable(RatedPart(es))))[i])
    requires unrated == UnratedPart(es)
    requires forall k :: 0 <= k < |unrated| ==>
               unrated[k].rating == Num(MaxOr0(Bump(Keys(SortStable(RatedPart(es))))) + 1 + k)
    ensures var final := sortedRated + unrated;
      && |final| == |Merged(es)| && final == Items(Merged(es))
      && (forall i :: 0 <= i < |final| ==> final[i].rating == Num(Merged(es)[i].1))
      && Keyed(final) == Merged(es)
  {
    ghost var rs := SortStable(RatedPart(es));
    ghost var b := Bump(Keys(rs));
    MergedSplit(es, rs, b, unrated);
    var n := |sortedRated|;
    assert n == |rs|;
    forall i | 0 <= i < |sortedRated + unrated|
      ensures (sortedRated + unrated)[i].rating == Num(Merged(es)[i].1)
    {
      if i < n {
        assert (sortedRated + unrated)[i] == sortedRated[i];
      } else {
        assert (sortedRated + unrated)[i] == unrated[i - n];
      }
    }
  }

  /**
   * The formatting step of `process_albums`: on a non-empty list holding the
   * ranks of `plan`, every rating becomes its label at the width chosen
   * from the last rank and the count.
   */
  method FormatPlan(final: seq<Album>, ghost plan: seq<(Album, nat)>)
    requires final == Items(plan) && Distinct(final)
    requires forall i :: 0 <= i < |final| ==> final[i].rating == Num(plan[i].1)
    modifies final
    ensures forall i :: 0 <= i < |final| ==> final[i].rating == Label(Pad(plan[i].1, PlanWidth(plan)))
  {
    if final != [] {
      var length := if final[|final| - 1].rating.n > 99 || |final| > 99 then 3 else 2;
      FormatRatings(final, length);
    }
  }

  /**
   * Stages 2 to 5 of `process_albums` on the listened albums: split, repair
   * the rated ones, default the unrated ones, concatenate and sort.  The
   * albums end up in the order, and with the numeric ranks, of `Merged`.
   */
  method RankListened(listened: seq<Album>) returns (final: seq<Album>)
    requires Distinct(listened)
    requires forall i :: 0 <= i < |listened| ==> !listened[i].rating.Label?
    modifies listened
    ensures var plan := Merged(old(Entries(listened)));
      && |final| == |plan| && final == Items(plan)
      && forall i :: 0 <= i < |final| ==> final[i].rating == Num(plan[i].1)
  {
    ghost var es := Entries(listened);
    var rated := Items(RatedPart(Entries(listened)));
    var unrated := UnratedPart(Entries(listened));
    EntriesParts(listened);
    final := RankParts(rated, unrated, es);
    assert SortStable(Keyed(final)) == Merged(es) by {
      NormalizeShape(es);
    }
    final := Items(SortStable(Keyed(final)));
  }

  /**
   * Stages 3 and 4 of `process_albums`: repair the ranks of the rated
   * albums, number the unrated ones on from the highest, and concatenate.
   */
  method RankParts(rated: seq<Album>, unrated: seq<Album>, ghost es: seq<(Album, Option<nat>)>)
      returns (merged: seq<Album>)
    requires Distinct(rated) && Distinct(unrated)
    requires forall j, k :: 0 <= j < |rated| && 0 <= k < |unrated| ==> rated[j] != unrated[k]
    requires forall j :: 0 <= j < |rated| ==> rated[j].rating.Num?
    requires Keyed(rated) == RatedPart(es) && unrated == UnratedPart(es)
    modifies rated, unrated
    ensures merged == Items(Merged(es)) && Keyed(merged) == Merged(es)
    ensures forall i :: 0 <= i < |merged| ==> merged[i].rating == Num(Merged(es)[i].1)
  {
    ghost var rp := RatedPart(es);
    var sorted := EnsureUniqueRatings(rated);
    assert forall i :: 0 <= i < |sorted| ==> sorted[i] !in unrated by {
      SortedApart(rp, unrated);
    }
    var highest := MaxOr0(Keys(Keyed(sorted)));
    assert highest == MaxOr0(Bump(Keys(SortStable(rp)))) by {
      KeyedRanks(sorted, Bump(Keys(SortStable(rp))));
    }
    AssignDefaultRatings(unrated, highest + 1);
    merged := sorted + unrated;
    StagesMerged(es, sorted, unrated);
  }


  /**
   * `process_albums` on `albums` (the manager's `self.albums`): the listened
   * albums, ordered and ranked as the normaliser says, each rating replaced
   * by the rank's zero-padded label at the width chosen from the last rank
   * and the count.  Only listened albums are written.
   */
  method ProcessAlbums(albums: seq<Album>) returns (final: seq<Album>)
    requires Distinct(albums)
    requires forall i :: 0 <= i < |albums| && albums[i].IsListened() ==> !albums[i].rating.Label?
    modifies Listened(albums)
    ensures var plan := NormalizeSpec(old(Entries(Listened(albums))));
      && final == Items(plan)
      && forall i :: 0 <= i < |final| ==> final[i].rating == Label(Pad(plan[i].1, PlanWidth(plan)))
    ensures Distinct(final) && forall i :: 0 <= i < |final| ==> final[i] in albums && final[i].IsListened()
  {
    var listened := Listened(albums);
    ghost var es := Entries(listened);
    ghost var plan := NormalizeSpec(es);
    assert plan == Merged(es) by {
      NormalizeShape(es);
    }
    assert Distinct(listened) by {
      ListenedMultiset(albums);
      DistinctSub(listened, albums);
    }
    final := RankListened(listened);
    assert Distinct(final) && forall i :: 0 <= i < |final| ==> final[i] in listened by {
      NormalizeMembers(es);
    }
    assert forall i :: 0 <= i < |final| ==> final[i] in albums && final[i].IsListened();
    FormatPlan(final, plan);
  }

  /**
   * Each album paired with the rank its page's `Alex Top` label carries.
   * Right after a fetch this is what `Entries` reads off the albums.
   */
  function PageEntries(s: seq<Album>): (r: seq<(Album, Option<nat>)>)
    ensures Items(r) == s
  {
    seq(|s|, i requires 0 <= i < |s| => (s[i], RankLabel(s[i].page.alexTop)))
  }

  /** Right after a fetch, every album holds the rank its page's label carries. */
  lemma FetchedEntries(albums: seq<Album>)
    requires forall i :: 0 <= i < |albums| ==> albums[i].rating == InitialRating(RankLabel(albums[i].page.alexTop))
    ensures Entries(Listened(albums)) == PageEntries(Listened(albums))
    ensures forall i :: 0 <= i < |albums| && albums[i].IsListened() ==> !albums[i].rating.Label?
  {
    var listened := Listened(albums);
    forall i | 0 <= i < |listened| ensures RankOf(listened[i].rating) == RankLabel(listened[i].page.alexTop) {
      var j :| 0 <= j < |albums| && albums[j] == listened[i];
    }
  }

  /**
   * `AlbumSorter.run` with the page fetch injected as `pages` and the final
   * `update_notion_ratings` write-back left to the caller: the result is the
   * list of albums whose labels would be written, in write order.  A page
   * the parser rejects aborts the run.
   */
  method Run(manager: BaseNotionManager, pages: seq<Page>, compactMode: bool) returns (r: Result<seq<Album>, ParseError>)
    modifies manager
    ensures r.Failure? <==> exists i :: 0 <= i < |pages| && ParseNotionPage(pages[i]).Failure?
    ensures r.Failure? ==> manager.albums == old(manager.albums)
    ensures r.Success? ==>
      && |manager.albums| == |pages|
      && (forall i :: 0 <= i < |pages| ==>
            && manager.albums[i].page == pages[i]
            && manager.albums[i].name == ParseNotionPage(pages[i]).value.name
            && manager.albums[i].artist == ParseNotionPage(pages[i]).value.artist
            && manager.albums[i].status == ParseNotionPage(pages[i]).value.status
            && manager.albums[i].pageId == ParseNotionPage(pages[i]).value.pageId)
      && var plan := NormalizeSpec(PageEntries(Listened(manager.albums)));
         && r.value == Items(plan)
         && forall i :: 0 <= i < |plan| ==>
              r.value[i].rating == Label(if compactMode then Pad(i + 1, CompactWidth(|plan|))
                                         else Pad(plan[i].1, PlanWidth(plan)))
  {
    var fetched := manager.FetchAlbums(pages);
    if fetched.Failure? {
      return Failure(fetched.error);
    }
    var albums := manager.albums;
    FetchedEntries(albums);
    var processed := ProcessAlbums(albums);
    if compactMode {
      CompactRatings(processed);
    }
    r := Success(processed);
  }
}
