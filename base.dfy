/**
 * src/core/base.py: the shared `Album` record, the page parser, the
 * credential check and the parse loop of `fetch_albums`.
 */
module Base {
  import opened Wrappers
  import opened Pages
  import opened Labels
  import opened Ranking

  /** The fields `_parse_notion_page` reads from one page. */
  datatype Parsed = Parsed(
    name: string,
    artist: string,
    rating: Option<nat>,
    status: string,
    pageId: string,
    hasCover: bool,
    hasIcon: bool)

  /** The rating an album starts with: the parsed number, or unrated. */
  function InitialRating(rating: Option<nat>): (r: Rating)
    ensures RankOf(r) == rating && !r.Label?
  {
    if rating.Some? then Num(rating.value) else Unrated
  }

  /**
   * An album.  The rank stages only ever write `rating` (first a number,
   * then a zero-padded label), so every other field is a constant.
   */
  class Album {
    const name: string
    const artist: string
    var rating: Rating
    const status: string
    const pageId: string
    const page: Page
    const hasCover: bool
    const hasIcon: bool

    constructor (p: Parsed, page: Page)
      ensures name == p.name && artist == p.artist && status == p.status
      ensures pageId == p.pageId && hasCover == p.hasCover && hasIcon == p.hasIcon
      ensures rating == InitialRating(p.rating) && this.page == page
    {
      name, artist, status := p.name, p.artist, p.status;
      pageId, hasCover, hasIcon := p.pageId, p.hasCover, p.hasIcon;
      rating := InitialRating(p.rating);
      this.page := page;
    }

    /** `is_listened` */
    predicate IsListened()
    {
      status == "Listened"
    }

    /** `is_rated`: any rating, number or label, counts. */
    predicate IsRated()
      reads this
    {
      !rating.Unrated?
    }

    /** This album holds what `p` describes, with `rating` as its rating. */
    predicate Holds(p: Parsed)
      reads this
    {
      name == p.name && artist == p.artist && status == p.status && pageId == p.pageId
      && hasCover == p.hasCover && hasIcon == p.hasIcon && rating == InitialRating(p.rating)
    }
  }

  /** `data.get('name', default) if data else default` on a select or status value. */
  function ChoiceOr(s: Select, default: string): string
  {
    if s.Choice? then s.name else default
  }

  /**
   * `_parse_notion_page`.  Missing properties fall back to defaults; the only
   * lookup that raises (`KeyError`) is `['text']` on a title whose first
   * segment is not a text segment.
   */
  function ParseNotionPage(page: Page): (r: Result<Parsed, ParseError>)
    ensures r.Failure? <==> page.title.Some? && page.title.value != [] && page.title.value[0].OtherSegment?
    ensures r.Success? ==>
      && (page.title.None? || page.title.value == [] ==> r.value.name == "Untitled")
      && (page.title.Some? && page.title.value != [] ==> r.value.name == page.title.value[0].content)
      && (page.artist.Choice? ==> r.value.artist == page.artist.name)
      && (!page.artist.Choice? ==> r.value.artist == "Unknown")
      && (page.status.Choice? ==> r.value.status == page.status.name)
      && (!page.status.Choice? ==> r.value.status == "Unknown")
      && r.value.rating == RankLabel(page.alexTop)
      && (r.value.rating.Some? <==> page.alexTop.Choice? && IsDigits(page.alexTop.name))
      && r.value.pageId == page.id
      && r.value.hasCover == page.cover.Some?
      && r.value.hasIcon == page.icon.Some?
  {
    var titles := if page.title.Some? then page.title.value else [];
    if titles != [] && titles[0].OtherSegment? then Failure(MissingKey("text"))
    else
      var name := if titles == [] then "Untitled" else titles[0].content;
      Success(Parsed(name, ChoiceOr(page.artist, "Unknown"), RankLabel(page.alexTop),
                     ChoiceOr(page.status, "Unknown"), page.id, page.cover.Some?, page.icon.Some?))
  }

  /**
   * Round trip with the label writer: a page whose `Alex Top` holds the
   * zero-padded label of `k`, at any width, parses back to rating `k`.
   */
  lemma ParseReadsPaddedLabel(page: Page, k: nat, width: nat)
    requires page.alexTop == Choice(Pad(k, width))
    requires ParseNotionPage(page).Success?
    ensures ParseNotionPage(page).value.rating == Some(k)
  {
    PadRoundTrip(k, width);
  }

  /** `x or os.getenv(...)`: an explicit non-empty value wins over the environment. */
  function OrEnv(arg: Option<string>, env: Option<string>): Option<string>
  {
    if arg.Some? && arg.value != "" then arg else env
  }

  predicate Given(v: Option<string>)
  {
    v.Some? && v.value != ""
  }

  /**
   * The credential check of `BaseNotionManager.__init__`: the API key and the
   * database id each come from the argument or else the environment, and a
   * `ValueError` is raised when either ends up missing or empty.
   */
  function Credentials(apiKey: Option<string>, dbId: Option<string>,
                       envApiKey: Option<string>, envDbId: Option<string>): (r: Result<(string, string), string>)
    ensures r.Success? <==> (Given(apiKey) || Given(envApiKey)) && (Given(dbId) || Given(envDbId))
    ensures r.Success? ==> r.value.0 != "" && r.value.1 != ""
    ensures r.Success? ==> r.value.0 == (if Given(apiKey) then apiKey.value else envApiKey.value)
    ensures r.Success? ==> r.value.1 == (if Given(dbId) then dbId.value else envDbId.value)
  {
    var key, db := OrEnv(apiKey, envApiKey), OrEnv(dbId, envDbId);
    if Given(key) && Given(db) then Success((key.value, db.value))
    else Failure("API_KEY and ALBUM_DB_ID must be set")
  }

  /** The albums of `s` that were listened to, in order (a list comprehension). */
  function Listened(s: seq<Album>): (r: seq<Album>)
    ensures forall i :: 0 <= i < |r| ==> r[i] in s && r[i].IsListened()
    ensures forall i :: 0 <= i < |s| && s[i].IsListened() ==> s[i] in r
  {
    if s == [] then []
    else
      var rest := Listened(s[1..]);
      assert s == [s[0]] + s[1..];
      if s[0].IsListened() then [s[0]] + rest else rest
  }
  /** The listened albums are drawn from `s` without repetition of their own. */
  lemma {:induction false} ListenedMultiset(s: seq<Album>)
    ensures multiset(Listened(s)) <= multiset(s)
  {
    if s != [] {
      ListenedMultiset(s[1..]);
      assert s == [s[0]] + s[1..];
    }
  }


  /** Each album paired with its numeric rank, if any. */
  function Entries(s: seq<Album>): (r: seq<(Album, Option<nat>)>)
    reads s
    ensures Items(r) == s
  {
    seq(|s|, i requires 0 <= i < |s| reads s => (s[i], RankOf(s[i].rating)))
  }

  /** Each album paired with its rank, 0 when it has none (the `rating or 0` sort key). */
  function Keyed(s: seq<Album>): (r: seq<(Album, nat)>)
    reads s
    ensures Items(r) == s
  {
    seq(|s|, i requires 0 <= i < |s| reads s => (s[i], RatingOrZero(s[i].rating)))
  }

  /**
   * The manager state: the resolved credentials and the album list that
   * `fetch_albums` fills.  The client library handle is not modelled.
   */
  class BaseNotionManager {
    const apiKey: string
    const dbId: string
    var albums: seq<Album>

    constructor (apiKey: Option<string>, dbId: Option<string>, envApiKey: Option<string>, envDbId: Option<string>)
      requires Credentials(apiKey, dbId, envApiKey, envDbId).Success?
      ensures (this.apiKey, this.dbId) == Credentials(apiKey, dbId, envApiKey, envDbId).value
      ensures albums == []
    {
      var c := Credentials(apiKey, dbId, envApiKey, envDbId).value;
      this.apiKey, this.dbId := c.0, c.1;
      albums := [];
    }

    /**
     * The parse loop of `fetch_albums` over the fetched `pages`: one new
     * album per page, in page order, replacing `albums`.  A page whose
     * parse raises aborts the call and leaves `albums` as it was.
     */
    method FetchAlbums(pages: seq<Page>) returns (r: Result<seq<Album>, ParseError>)
      modifies this
      ensures r.Failure? <==> exists i :: 0 <= i < |pages| && ParseNotionPage(pages[i]).Failure?
      ensures r.Failure? ==> albums == old(albums)
      ensures r.Success? ==>
        && albums == r.value && |albums| == |pages| && Distinct(albums)
        && forall i :: 0 <= i < |pages| ==>
             fresh(albums[i]) && albums[i].page == pages[i] && albums[i].Holds(ParseNotionPage(pages[i]).value)
    {
      var acc: seq<Album> := [];
      var i := 0;
      while i < |pages|
        invariant 0 <= i <= |pages| && |acc| == i && Distinct(acc) && albums == old(albums)
        invariant forall j :: 0 <= j < i ==> ParseNotionPage(pages[j]).Success?
        invariant forall j :: 0 <= j < i ==>
                    fresh(acc[j]) && acc[j].page == pages[j] && acc[j].Holds(ParseNotionPage(pages[j]).value)
      {
        var parsed := ParseNotionPage(pages[i]);
        if parsed.Failure? {
          return Failure(parsed.error);
        }
        var album := new Album(parsed.value, pages[i]);
        assert forall j :: 0 <= j < i ==> acc[j] != album;
        acc := acc + [album];
        i := i + 1;
      }
      albums := acc;
      r := Success(acc);
    }
  }
}
