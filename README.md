# Notion Albums: rank normaliser, page parsers and option-list helpers

Notion Albums keeps a personal ranking of listened albums in a Notion
database. Each album page has an `Alex Top` select whose option name is the
album's rank. The sorter reads every page and keeps the albums whose status is
`Listened`. It repairs duplicate ranks, numbers the unranked albums after the
highest rank, and writes every rank back as a zero-padded label ("07",
"123"). On request it first compacts the ranks to 1..n.

This Dafny project models that core and proves what it promises:

- `wrappers.dfy`: `Option` and `Result`. A Python `None` or a raised
  `KeyError`/`ValueError` becomes one of these.
- `pages.dfy`: a page as the client library returns it. It keeps only the
  properties the core reads. A dictionary lookup that may find nothing, a
  null or a value becomes a variant (`Select = Absent | NoChoice | Choice`).
- `text.dfy`: Python's `<` on strings, and the facts about it the proofs
  need (total, transitive, irreflexive, every finite set has a least element).
- `labels.dfy`: the digit test (`str.isdigit`), the integer parse (`int`) and
  zero-padding (`'{:0Nd}'.format`). It proves the round trip between them and
  that equal-width labels sort as strings in numeric order.
- `ranking.dfy`: the normaliser as pure functions over (album, rank) pairs.
  It uses a stable sort, the left-to-right bump repair, default ranks and the
  width rule. Both versions of the sorter are proved against these
  functions.
- `base.dfy`: `src/core/base.py`. It has the shared `Album` class (only
  `rating` is mutable), the page parser, the credential check of
  `BaseNotionManager` and the parse loop of `fetch_albums`.
- `sorter.dfy`: `src/managers/sorter.py`. Its rank stages are methods that
  write `rating` on the shared album objects in place. `process_albums` and
  `run` chain those stages.
- `albums_sorter.dfy`: `Sorter/AlbumsSorter.py`, the stand-alone sorter. It
  has its own `Album` class, a strict parser, the name-to-page map, stages
  keyed by `rating or 0`, `process_albums`, and one pass of `main`'s loop.
- `extra_tops.dfy`: `deleteExtraTops.py`, identical in
  `Sorter/deleteExtraTops.py`. It collects the used `Alex Top` labels sorted,
  splits a list into chunks, and accumulates the option lists the rebuild
  sends. The functions of the second copy sit at
  `Sorter/deleteExtraTops.py` lines 18-24, 26-28 and 30-61. The table below
  cites the first copy.

A `rating` holds `None`, then an `int`, then a `str` label. It is modelled as
`Rating = Unrated | Num(n) | Label(text)`. Each stage method states the new
rating of every album it touches, as a function of the old state. Its result
is tied to `Ranking.NormalizeSpec`, the pure normaliser. The pipeline's
promises are lemmas about that function: permutation, strictly ascending
ranks, unrated albums last and in fetch order, and the minimal bump.

Python's `list.sort` and `sorted` are stable. They are modelled by an
insertion sort (`Ranking.SortStable`), proved sorted and a permutation that
keeps the input order of equal keys.

Where the code's behaviour differs from what its names and docstrings suggest,
or the two versions of the parser differ, the model follows the code:

- Labels are padded to at least the chosen width, not exactly to it. A rank
  of 1000 or more renders wider, so the labels are uniform, and sort as
  strings in rank order, only while the last rank stays below 1000
  (`Ranking.PlanLabels`).
- In `Sorter/AlbumsSorter.py` the artist and the status fall back to
  "Unknown" on a null option or an empty name, while a missing `Artist` or
  `Status` property raises `KeyError`. `src/core/base.py` falls back only on
  a missing or null option and keeps an empty name as it is.

## Model

| member | source | states |
|---|---|---|
| Labels.DecimalValue | src/managers/sorter.py:85-87 | `int(str(n)) == n`: the digits `format` writes for a rank parse back to that rank |
| Labels.PadRoundTrip | src/managers/sorter.py:83-88 | a zero-padded label of `n` at any width is all digits and `int` of it is `n`, so a written label is read back as the same rank |
| Labels.PadLength | src/managers/sorter.py:85-87 | the label of `n` has exactly `width` characters when `n < 10^width`, and more otherwise |
| Labels.LexIsNumeric | src/managers/sorter.py:54-56 | on digit strings of equal length, Python's string `<` agrees with numeric `<` (both directions) |
| Labels.PadOrder | src/managers/sorter.py:54-56 | two ranks that fit the width: label(n) < label(m) as strings iff n < m |
| Labels.DigitsValueBound | src/core/base.py:81-82 | a digit string of length k reads as a number below 10^k |
| Labels.ParsePadRoundTrip | src/core/base.py:81-82 | the other direction of the round trip: a digit string is the zero-padded label, at its own length, of the number `int` reads from it |
| Labels.RankLabel | src/core/base.py:79-82 | a rank is read iff the `Alex Top` option is present and its name is non-empty and all digits, and it is then `int` of the name, the number whose label at that length is the name; the same test is written at Sorter/AlbumsSorter.py:75-78 |
| Labels.IsDigits | src/core/base.py:81 | `name.isdigit()` on a non-empty name: every character a decimal digit (its uses: `Labels.RankLabel`, `Labels.Pad`) |
| Labels.Pad | src/managers/sorter.py:85-87 | `'{:0<width>}'.format(n)`: a digit string of at least `width` characters |
| Text.Least | deleteExtraTops.py:45 | every non-empty set of strings has an element no other element sorts below (what `sorted` starts from) |
| Text.LexTotal | deleteExtraTops.py:45 | any two strings are equal or one sorts strictly below the other |
| Ranking.SortStable | src/managers/sorter.py:65 | `sorted(..., key=rating)`: same number of entries; its full contract (same entries, key order, stability) is `Ranking.SortStableCorrect` |
| Ranking.SortStableCorrect | src/managers/sorter.py:65 | the stable sort returns the same entries (as a multiset, also after dropping keys), in ascending key order, and keeps the input order of entries with equal keys |
| Ranking.SortStableOfSorted | src/managers/sorter.py:50-51 | sorting a list already in key order leaves it unchanged |
| Ranking.BumpAt | src/managers/sorter.py:66-73 | the repair keeps the first rank; every later rank becomes max(own rank, repaired previous + 1) |
| Ranking.BumpIncreasing | src/managers/sorter.py:68-75 | the repaired ranks are strictly ascending (hence distinct) and none is below its original rank |
| Ranking.BumpLeast | src/managers/sorter.py:68-73 | minimal disturbance: any strictly ascending list that keeps each rank at or above the original is, position by position, at least the repaired one |
| Ranking.BumpOfIncreasing | src/managers/sorter.py:68-73 | ranks already distinct and ascending pass through unchanged |
| Ranking.BumpIdempotent | src/managers/sorter.py:68-73 | repairing twice is repairing once |
| Ranking.BumpExamples | src/managers/sorter.py:66-73 | [5,5,5] becomes [5,6,7]; [3,3,4] and [3,3,5] become [3,4,5] |
| Ranking.Bump | src/managers/sorter.py:66-73 | the repair keeps the number of ranks; what it does to each rank is `Ranking.BumpAt`, `Ranking.BumpIncreasing` and `Ranking.BumpLeast` |
| Ranking.MaxOr0 | src/managers/sorter.py:46 | `max(..., default=0)`: at least every element, equal to one of them, 0 for an empty list |
| Ranking.RatedPart | src/managers/sorter.py:41 | every rated entry kept comes from the input with its rank |
| Ranking.UnratedPart | src/managers/sorter.py:42 | every unrated entry kept comes from the input without a rank |
| Ranking.PartsSize | src/managers/sorter.py:41-42 | the rated and unrated parts together hold exactly the listened albums (sizes and multisets add up) |
| Ranking.PartsDistinct | src/managers/sorter.py:41-42 | splitting a repetition-free list gives two repetition-free lists |
| Ranking.RepairedFacts | src/managers/sorter.py:60-75 | the repair stage returns the rated albums stably sorted by rank, with the bumped ranks, strictly ascending, same albums |
| Ranking.MergedSplit | src/managers/sorter.py:45-50 | `rated + unrated` after stages 3 and 4: the sorted rated albums with their repaired ranks, then the unrated albums in fetch order numbered from max + 1 upwards |
| Ranking.MergedIncreasing | src/managers/sorter.py:45-50 | the concatenation is already strictly ascending by rank |
| Ranking.MergedFacts | src/managers/sorter.py:45-50 | the concatenation starts with the repaired part, ends with the unrated albums, and is a permutation of the listened albums |
| Ranking.NormalizeShape | src/managers/sorter.py:50-51 | the final `sort` changes nothing: the normalised list equals the concatenation, strictly ascending by rank |
| Ranking.NormalizePermutation | src/managers/sorter.py:38-51 | the output holds every listened album exactly as often as the input (a permutation) with strictly ascending ranks |
| Ranking.NormalizeMembers | src/managers/sorter.py:38-51 | every output album is an input album, and a repetition-free input gives a repetition-free output |
| Ranking.NormalizeRatedFirst | src/managers/sorter.py:45-51 | the rated albums come first, in stable rank order, each ranked at or above its original rank |
| Ranking.NormalizeUnratedInFetchOrder | src/managers/sorter.py:47-51 | the unrated albums follow, in fetch order |
| Ranking.NormalizeDefaultRanks | src/managers/sorter.py:46-47 | the unrated albums get highest + 1, highest + 2, ... (1, 2, ... when nothing was rated) |
| Ranking.NormalizeUnratedAbove | src/managers/sorter.py:45-51 | every formerly unrated album ranks strictly above every rated one |
| Ranking.NormalizeEmpty | src/managers/sorter.py:54 | the output is empty iff no album was listened |
| Ranking.Width | src/managers/sorter.py:55 | the label width is 2 or 3, and every rank and count below 1000 fits it (is below 10^width) |
| Ranking.CompactWidth | src/managers/sorter.py:95 | the compact width is 2 or 3, and every count below 1000 fits it |
| Ranking.LabelsInOrder | src/managers/sorter.py:83-88 | increasing ranks that fit a width give labels of exactly that width, strictly ascending as strings |
| Ranking.PlanLabels | src/managers/sorter.py:54-56 | every written label parses back to its rank; with the last rank below 1000, all labels have the chosen width and sort as strings in output order |
| Ranking.CompactLabels | src/managers/sorter.py:90-98 | the i-th compact label parses back to i; up to 999 albums they all have the chosen width and sort as strings in list order |
| Ranking.ScenarioExample | src/managers/sorter.py:38-51 | A and B both rated 3 and C unrated normalise to A=3, B=4, C=5 |
| Ranking.ScenarioLabels | src/managers/sorter.py:90-98 | the same three albums are labelled "03", "04", "05", or "01", "02", "03" when compacted |
| Base.InitialRating | src/core/base.py:79-82 | the rating an album starts with carries exactly the parsed rank and is never a label |
| Base.Album.IsListened | src/core/base.py:25-26 | `is_listened`: the status is exactly "Listened"; `Base.Listened` keeps exactly these albums |
| Base.Album.IsRated | src/core/base.py:29-30 | `is_rated`: any rating but none, a label included; `Sorter.EntriesParts` splits by it |
| Base.Album.constructor | src/core/base.py:88-97 | a new album holds the parsed fields and the page it came from |
| Base.ParseNotionPage | src/core/base.py:66-97 | the parse raises only when the first title segment has no `text`; name = first segment's text or "Untitled"; artist and status = the option's name when present, else "Unknown"; rating = `RankLabel` of `Alex Top`, present iff the label is a digit string; id, cover and icon flags copied |
| Base.ParseReadsPaddedLabel | src/core/base.py:79-82 | a page whose `Alex Top` holds the padded label of k parses to rating k |
| Base.Credentials | src/core/base.py:36-41 | succeeds iff each of key and database id is given non-empty (argument first, environment second), and then returns those values; otherwise a `ValueError` |
| Base.BaseNotionManager.constructor | src/core/base.py:36-44 | a manager is built only with both credentials, holding them and no albums |
| Base.BaseNotionManager.FetchAlbums | src/core/base.py:51-64 | one new album per fetched page, in page order, each holding its page's parse, and `self.albums` replaced by that list; a page that raises aborts with `albums` unchanged |
| Base.Listened | src/managers/sorter.py:38 | the kept albums are exactly those of the input whose status is "Listened" |
| Base.ListenedMultiset | src/managers/sorter.py:38 | the filter repeats no album more often than the input does |
| Sorter.EnsureUniqueRatings | src/managers/sorter.py:60-75 | returns the input albums stably sorted by rating, with every rating rewritten to its repaired rank; an empty list comes back as it is |
| Sorter.RepairRanks | src/managers/sorter.py:66-73 | the loop leaves every album at the repaired rank of its position |
| Sorter.SortedKeyed | src/managers/sorter.py:65 | sorting distinct numbered albums keeps them distinct and pairs each with its own rating |
| Sorter.AssignDefaultRatings | src/managers/sorter.py:77-81 | the i-th album, in list order, gets rating start + i |
| Sorter.FormatRatings | src/managers/sorter.py:83-88 | every numeric rating becomes its zero-padded label at the given width |
| Sorter.CompactRatings | src/managers/sorter.py:90-98 | the i-th album (from 1) gets the label of i at width 3 past 99 albums, else 2; the labels depend only on position, so compacting twice gives the same labels |
| Sorter.EntriesParts | src/managers/sorter.py:41-42 | the split by `is_rated`: the rated part holds numbered albums, the unrated part unrated ones, both from the listened list, distinct and disjoint |
| Sorter.StagesMerged | src/managers/sorter.py:45-50 | after stages 3 and 4, `rated + unrated` is `Ranking.Merged`, album by album and rank by rank |
| Sorter.FormatPlan | src/managers/sorter.py:53-56 | each rank becomes its label at width 3 when the last rank or the count exceeds 99, else 2 |
| Sorter.RankParts | src/managers/sorter.py:44-50 | the repaired rated albums followed by the defaulted unrated ones, with the ranks of `Ranking.Merged` |
| Sorter.RankListened | src/managers/sorter.py:40-51 | stages 2 to 5 leave the listened albums in the normaliser's order with its ranks |
| Sorter.ProcessAlbums | src/managers/sorter.py:35-58 | returns the normalised listened albums, each labelled with its padded rank at the chosen width; they are distinct, listened, drawn from `self.albums`, and only listened albums are written |
| Sorter.PageEntries | src/core/base.py:79-82 | pairs each album with the rank its page label carries, keeping the album order |
| Sorter.FetchedEntries | src/managers/sorter.py:25-29 | right after a fetch every listened album holds the rank its page label carries |
| Sorter.Run | src/managers/sorter.py:20-33 | fetch, then process, then compact if asked: the albums whose labels would be written, normalised from the fetched pages, padded ranks or compact positions; after success `self.albums` holds one album per page, in page order, with that page and its parsed name, artist, status and id; a page that raises aborts the run with `self.albums` unchanged |
| AlbumsSorter.InitialRating | Sorter/AlbumsSorter.py:76-78 | the starting rating carries exactly the parsed rank and is never a label |
| AlbumsSorter.Album.IsListened | Sorter/AlbumsSorter.py:25-26 | `is_listened`: the status is exactly "Listened"; `AlbumsSorter.Listened` keeps exactly these albums |
| AlbumsSorter.Album.IsRated | Sorter/AlbumsSorter.py:29-30 | `is_rated`: any rating but none; `AlbumsSorter.EntriesParts` splits by it |
| AlbumsSorter.Album.constructor | Sorter/AlbumsSorter.py:88-94 | a new album holds the parsed fields and its page |
| AlbumsSorter.NameOrUnknown | Sorter/AlbumsSorter.py:81-86 | the option's name when present and non-empty, else "Unknown" |
| AlbumsSorter.ParseAlbum | Sorter/AlbumsSorter.py:67-94 | raises iff `Album`, `Alex Top`, `Artist` or `Status` is missing or the first title segment has no `text`; name = first segment's text or "Untitled"; rating = `RankLabel` of `Alex Top`, present iff the label is a digit string; artist/status = `NameOrUnknown` of the option, so "Unknown" iff the option is null, its name empty, or the name is literally "Unknown", and the option's name otherwise |
| AlbumsSorter.ParseReadsPaddedLabel | Sorter/AlbumsSorter.py:75-78 | a page whose `Alex Top` holds the padded label of k parses to rating k |
| AlbumsSorter.TitleKey | Sorter/AlbumsSorter.py:58-60 | a page is filed iff its title is non-empty and its first segment is text |
| AlbumsSorter.PageMapKeys | Sorter/AlbumsSorter.py:54-62 | a name is a key iff some page is filed under it |
| AlbumsSorter.PageMapLastWins | Sorter/AlbumsSorter.py:57-61 | a name maps to the last page filed under it; later duplicates overwrite earlier ones |
| AlbumsSorter.CreatePageMap | Sorter/AlbumsSorter.py:54-62 | the loop builds exactly that map; a page without `Album` raises |
| AlbumsSorter.ParseAlbumData | Sorter/AlbumsSorter.py:64-96 | one new album per page, in page order, holding its parse; the first page that raises aborts |
| AlbumsSorter.Listened | Sorter/AlbumsSorter.py:139 | the kept albums are exactly those whose status is "Listened" |
| AlbumsSorter.ListenedMultiset | Sorter/AlbumsSorter.py:139 | the filter repeats no album more often than the input does |
| AlbumsSorter.SortedKeyed | Sorter/AlbumsSorter.py:103 | sorting by `rating or 0` keeps the albums distinct and pairs each with its own key |
| AlbumsSorter.EnsureUniqueRatings | Sorter/AlbumsSorter.py:98-114 | returns the albums stably sorted by `rating or 0`; a rating is rewritten to the repaired key only where the key was bumped; when all are rated, every rating is its repaired rank |
| AlbumsSorter.RepairRanks | Sorter/AlbumsSorter.py:104-112 | the loop writes the repaired key exactly where it differs from the old key and leaves the rest untouched |
| AlbumsSorter.AssignDefaultRatings | Sorter/AlbumsSorter.py:116-120 | the i-th album gets starting_rating + i |
| AlbumsSorter.FormatRatings | Sorter/AlbumsSorter.py:122-127 | every numeric rating becomes its zero-padded label at the given width |
| AlbumsSorter.CompactRatings | Sorter/AlbumsSorter.py:129-134 | the i-th album (from 1) gets the label of i at the width passed in, a function of position only |
| AlbumsSorter.EntriesParts | Sorter/AlbumsSorter.py:140-141 | the split by `is_rated`: the rated part holds numbered albums, the unrated part unrated ones, distinct and disjoint |
| AlbumsSorter.StagesMerged | Sorter/AlbumsSorter.py:144-149 | `rated + unrated` is `Ranking.Merged`, album by album and rank by rank |
| AlbumsSorter.FormatPlan | Sorter/AlbumsSorter.py:153-159 | an empty list is left alone; otherwise each rank becomes its label at width 3 when the last rank or the count exceeds 99, else 2 |
| AlbumsSorter.RankParts | Sorter/AlbumsSorter.py:143-149 | the repaired rated albums followed by the defaulted unrated ones, with the ranks of `Ranking.Merged` |
| AlbumsSorter.RankListened | Sorter/AlbumsSorter.py:139-150 | the listened albums end in the normaliser's order with its ranks |
| AlbumsSorter.NotionAlbumManager.constructor | Sorter/AlbumsSorter.py:36-40 | a manager starts with no albums and an empty page map |
| AlbumsSorter.NotionAlbumManager.FetchAndParse | Sorter/AlbumsSorter.py:42-52 | the page map is stored first and then the albums; a raise in the map step changes nothing, one in the parse step keeps the new map and the old albums |
| AlbumsSorter.NotionAlbumManager.ProcessAlbums | Sorter/AlbumsSorter.py:136-161 | the normalised listened albums, each labelled with its padded rank at the chosen width, empty when nothing is listened; distinct, listened, from the manager's albums |
| AlbumsSorter.PageEntries | Sorter/AlbumsSorter.py:75-78 | pairs each album with the rank its page label carries, keeping the album order |
| AlbumsSorter.FetchedEntries | Sorter/AlbumsSorter.py:64-96 | right after a parse every listened album holds the rank its page label carries |
| AlbumsSorter.MainPass | Sorter/AlbumsSorter.py:210-229 | one pass of `main`: succeeds iff every page has a title and parses; the page map is stored iff the map step passes; on failure the albums are unchanged; on success the manager holds one album per page, in page order, with that page and its parsed name, artist and status, and the result is the normalised list with padded ranks, or compact positions at width 3 iff more than 99 albums |
| AlbumsSorter.ProcessPass | Sorter/AlbumsSorter.py:213-227 | after a parse: `process_albums`, then compaction when asked and the list is non-empty; returns the normaliser's albums with padded ranks or compact positions |
| ExtraTops.SortedSet | deleteExtraTops.py:45 | `sorted(set)`: strictly ascending as strings, holding exactly the set's elements |
| ExtraTops.SortedUnique | deleteExtraTops.py:45 | two strictly ascending lists with the same elements are equal, so the sorted result is determined |
| ExtraTops.GetUsedAlexTopValues | deleteExtraTops.py:39-45 | returns exactly the option names chosen on some page, each once, ascending; pages with a missing or null select add nothing |
| ExtraTops.UsedValuesExample | deleteExtraTops.py:45 | pages labelled "9", "10", "9" give ["10", "9"]: string order, duplicates dropped |
| ExtraTops.Chunked | deleteExtraTops.py:47-49 | a zero size raises `ValueError`; a negative size yields no chunks |
| ExtraTops.ChunkedFacts | deleteExtraTops.py:47-49 | with a positive size, the chunks concatenate to the list; chunk k is the slice from k*size; there are none iff the list is empty, otherwise (n-1)*size < len <= n*size |
| ExtraTops.ChunkCount | deleteExtraTops.py:48 | there are ceil(len/size) chunks |
| ExtraTops.ChunkSizes | deleteExtraTops.py:48-49 | every chunk but the last has exactly `size` items, and every chunk, including the last, is non-empty |
| ExtraTops.ChunksFlatten | deleteExtraTops.py:48-49 | the chunks from any start concatenate to the rest of the list |
| ExtraTops.ChunksSlices | deleteExtraTops.py:48-49 | the k-th chunk from a start is the slice at start + k*size, cut at the end |
| ExtraTops.ChunksCount | deleteExtraTops.py:48 | the chunk count from a start lies between the bounds that fix ceil division |
| ExtraTops.ChunksSizes | deleteExtraTops.py:48-49 | the sizes, chunk by chunk from any start |
| ExtraTops.CeilDiv | deleteExtraTops.py:48 | those bounds pin the count down as (len + size - 1) / size |
| ExtraTops.RebuildSelectOptions | deleteExtraTops.py:51-82 | the option lists sent: first the empty list, then after chunk k the first min(100k, n) values as options, in order, the last being all of them; 1 + ceil(n/100) updates |

## Left out

- Network and console I/O are not modelled: the Notion client, pagination (`fetch_all_notion_pages`, `fetch_all_pages`), `print`, `tqdm`, `time`, `sleep`, `input`, `clear_console`. Fetched pages are parameters, and the user's d/c choice is a boolean.
- `update_notion_ratings` (both versions) is not modelled. The write-back is a per-album remote call with per-item error handling. The models return the list whose labels would be written, in write order. The page map the stand-alone version looks albums up in is modelled (`AlbumsSorter.PageMapLastWins`).
- The `databases.update` calls in `reset_and_rebuild_select_options` become the list of option lists they would send. The script's own entry point never calls the rebuild; that call is commented out.
- Environment loading is not modelled: `load_dotenv`, `decrypt_env_file` (an `openssl` subprocess), `load_secrets`. Environment variables are parameters of `Base.Credentials`.
- `main` in Sorter/AlbumsSorter.py checks the environment directly before constructing the manager. That check and the retry loop are not modelled. `AlbumsSorter.MainPass` models one pass of the loop.
- `src/app.py`, `app.py`, `Covers/covers.py` and `src/managers/decorator.py` are not part of this model. They are UI, Spotify and cover-art code outside the ranking core.
- `cover_url`, `icon_url` and `notion_page` are not modelled beyond the page itself: no stage reads or writes them.
- Base.ParseNotionPage: `page['properties']` is assumed present, because every page the database query returns has it. The model covers every missing property inside it.
- Base.ParseNotionPage: a select that is present but has no `name` key is treated as a null select.
- AlbumsSorter.ParseAlbum: a select that is present but has no `name` key is treated as a null select, where the source would raise `KeyError`.
- Labels.IsDigits: `str.isdigit` also accepts non-ASCII digits, such as superscripts and other scripts. The model accepts only ASCII 0-9.
- Sorter.ProcessAlbums: albums are assumed distinct objects, and their ratings hold no label on entry. Both hold right after a fetch (`Sorter.FetchedEntries`), which is how `run` calls it.
- AlbumsSorter.NotionAlbumManager.ProcessAlbums: the same distinctness and no-label assumptions, which hold after `FetchAndParse`. The source's `isinstance(max_rating, int)` test is therefore always true.
- AlbumsSorter.ProcessPass: the same two requirements, which `AlbumsSorter.MainPass` meets by calling it right after `FetchAndParse`.
- Ranking.PlanLabels: uniform width and string order are stated only for a last rank below 1000. Beyond that the source's labels are wider than 3 and no longer sort as strings in rank order.
- Ranking.CompactLabels: uniform width and string order are stated only up to 999 albums, for the same reason.
- ExtraTops.RebuildSelectOptions: the chunk size is the literal 100 of the source, so the zero-size `ValueError` path of `chunked` cannot arise there. It is modelled in `ExtraTops.Chunked`.
- Concurrency, and aliasing between album objects beyond the distinctness requirement, are not modelled.
