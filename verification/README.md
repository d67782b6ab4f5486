# Title resolution in the media module, modelled in Dafny

This project models how the media module (`app/media/media.py`) turns a parsed release name into one TMDB record. A parsed name is a name, a type, a year and a season.

A resolution runs in this order:

1. Read the resolution cache.
2. On a miss, run the structured strategies: movie search over three years, TV search with an optional season check, and multi search.
3. If those find nothing, try the TMDB website scrape.
4. If that finds nothing, try the keyword fallback. It scores the emphasised terms of two web-search result pages and searches again with the winning phrase.
5. Re-fetch a record that came back without genres.
6. Write the outcome through to the cache.

The network, the TMDB client, the parser and the string helpers are parameters. Everything else is pure functions over immutable datatypes.

Python's three kinds of result are kept apart: `None` (`Outcome.Null`), `{}` (`Outcome.NotFound`) and a record (`Outcome.Found`). They matter because:
- a confirmed miss is cached as `{'id': 0}`, while `None` is never cached;
- a search that raises yields `None`;
- a search that finds nothing yields `{}`.

Modules:
- `Wrappers`: `Option`.
- `Seqs`: first- and last-match scans, filtering, bounded prefixes, order-preserving de-duplication.
- `Text`: truthiness, `[0:4]`, `str(int)`, `find`, `replace`, `split('/')[-1]`, and the string helpers as oracle functions.
- `Records`: the TMDB record and the TMDB service oracle, `get_tmdb_info`, `__get_genre_ids_from_detail`.
- `Helpers`: season lists, the episode count of a season, detail URLs, episode intersection.
- `Names`: `__compare_tmdb_names`, `__search_tmdb_allnames`.
- `Pickers`: the four candidate pickers and `__search_tmdb`.
- `Web`: the link rule of `__search_tmdb_web`.
- `Keyword`: `cal_score`, score accumulation and the tie-break of `__search_engine`.
- `Cache`: `__make_cache_key`, `__insert_media_cache` and the cache read-back.
- `Resolve`: `get_media_info`.

Where prose descriptions of the module and its code differ, the model follows the code:
- the by-name pickers consult up to six eligible candidates, because of the `index > 5` break;
- the multi picker keeps the last match in both passes;
- the web fallback answers `None`, not `{}`, when the page has no title link or several;
- a negative entry is written only for `{}`.

Two behaviours of the code that look unintended are modelled as written, and each is stated by a lemma:
- `Keyword.FourthWeightUnused`: Python groups `n >> 2 + n >> 1` as `(n >> (2 + n)) >> 1`, so the fourth weight of the large table is never used.
- `Pickers.MultiExpansionIsTaggedTv`: a movie found only through the multi picker's expansion pass is tagged TV. The detail lookup stores the enum, not the string `"movie"` that the final tag tests for.

## Model

| member | source | states |
|---|---|---|
| Names.CompareNames | app/media/media.py:74-90 | False for an empty file name or falsy candidates; otherwise true iff some candidate equals the file name once both are normalised and upper-cased, with only the candidate stripped |
| Names.SingleIsOneElementList | app/media/media.py:82-83 | A single candidate string compares exactly like the one-element list holding it |
| Names.NameEqualsItself | app/media/media.py:84-89 | A non-empty name matches itself, as a string or a one-element list, when stripping leaves its normalised form unchanged |
| Names.AllNamesSpec | app/media/media.py:92-127 | A zero id yields `({}, [])`. Otherwise the outcome is the detail lookup's, and a falsy detail has no names. The names are distinct and non-empty, and are exactly the truthy alternative and translated names for the type. The alternative titles come first |
| Names.AllNames | app/media/media.py:92-127 | A zero id yields `({}, [])` without a lookup; any other id yields the detail lookup's outcome; names come only with a found detail |
| Names.HarvestNames | app/media/media.py:103-126 | The names of a detail record are distinct and non-empty, are exactly the truthy alternative and translated names for the type, and begin with the alternative titles |
| Names.AllNamesFirstSeenOrder | app/media/media.py:103-126 | The harvested names keep first-seen order over the reading order: alternative titles, then translations |
| Names.OfferedIsTruthyText | app/media/media.py:106-108 | A name is offered by a list of optional titles iff it is a non-empty entry of that list |
| Records.GetTmdbInfo | app/media/media.py:471-506 | `None`, `{}` and a record pass through from the detail endpoint. A record changes only in `media_type`, which is MOVIE iff asked as MOVIE and TV otherwise, and in `genre_ids`, which is aligned with `genres` |
| Records.GenreIds | app/media/media.py:1901-1910 | One id per genre, in order, each the genre's own id |
| Helpers.TvSeasons | app/media/media.py:1340-1370 | A falsy record has no seasons; a record's seasons are its `seasons` list |
| Helpers.EpisodesOfFirst | app/media/media.py:1469-1475 | The episode count of the first season with the requested number, or 0 when no season has it |
| Helpers.SeasonEpisodesNum | app/media/media.py:1460-1475 | 0 for a falsy record; otherwise the episode count of the first season with the requested number, or 0 when there is none |
| Helpers.DetailUrl | app/media/media.py:2048-2059 | Empty iff the id is falsy. A `DB:` id gives the Douban page. Any other id gives the TMDB movie page for MOVIE and the TV page otherwise, ending in the id's text |
| Helpers.DoubanUrl | app/media/media.py:2054-2055 | The id `DB:s`, for an `s` without a further `DB:`, gives the Douban subject page ending in exactly `s` |
| Helpers.NumericIdIsNotDouban | app/media/media.py:2054 | A numeric id never takes the Douban branch |
| Helpers.DetailUrlInjective | app/media/media.py:2048-2059 | For one media type, different non-zero numeric ids have different detail URLs |
| Helpers.MergeSeason | app/media/media.py:2028-2044 | One target season is merged with the first source entry for the same season: unchanged when there is none or it lists no episodes, the source's episodes when the target lists none, the intersection otherwise |
| Helpers.MergeSeasonTwice | app/media/media.py:2028-2044 | Merging again with the same source changes nothing, unless the first merge emptied a non-empty season |
| Helpers.MergeSeasonRefills | app/media/media.py:2037-2044 | A season disjoint from the source is emptied by one merge and refilled with the source's episodes by a second |
| Helpers.IntersectEpisodes | app/media/media.py:2016-2045 | Other titles are untouched. The target is returned as is without a source list. A target without the title copies the source's list. Otherwise each season keeps its number and position, its episodes can only shrink, and it becomes its merge with the source's list |
| Pickers.ExpandLoopIsFirstInWindow | app/media/media.py:238-256 | The expansion loop, which skips ineligible candidates and breaks once `index > 5`, returns the detail of the first confirmed candidate among the first six eligible ones, or `{}` |
| Pickers.SearchByName | app/media/media.py:207-217 | The movie picker asks the movie search and the TV picker the TV search, with the same name and year; the TV twin is at lines 266-276 |
| Pickers.ByName | app/media/media.py:200-316 | `None` iff the search raised; `{}` for no results. The first direct hit wins: eligible by year, and a matching title or original title. Otherwise the first confirmed candidate among six eligible ones |
| Pickers.ByNameFound | app/media/media.py:222-256 | A found record is either a direct hit, or, with no direct hit at all, the detail (typed by the picker's kind) of a confirmed candidate inside the six-candidate window |
| Pickers.ConfirmedFound | app/media/media.py:238-256 | The candidate the by-name expansion pass settles on always has a detail record |
| Pickers.ConfirmedDetail | app/media/media.py:247-254 | A candidate whose harvested names match has a detail record, typed by the kind it was fetched as |
| Pickers.AnySeasonAgrees | app/media/media.py:333-337 | True iff some season has a truthy air date in the requested year and a truthy season number equal to the requested one |
| Pickers.SeasonMatch | app/media/media.py:327-340 | True iff the record is truthy and one of its seasons confirms the requested year and season |
| Pickers.SeasonZeroNeverMatches | app/media/media.py:334 | Season 0 never confirms, because it is falsy |
| Pickers.BySeason | app/media/media.py:318-367 | A name-only TV search: `None` iff it raised, `{}` for no results. First, a name match whose first air date is in the year. Otherwise the first of the first five results whose names match and one of whose seasons confirms |
| Pickers.BySeasonExpansionHasSeason | app/media/media.py:361-366 | A hit found by expansion really has a season aired in the year under the requested non-zero number |
| Pickers.SeasonConfirmedFound | app/media/media.py:355-366 | The result the season expansion pass settles on always has a detail record |
| Pickers.BySeasonFallback | app/media/media.py:355-367 | With no direct hit, a record is found iff one of the first five results confirms, and it is the detail of the first such result; otherwise the answer is `{}` |
| Pickers.TagMulti | app/media/media.py:409-410 | Only `media_type` changes: MOVIE iff the stored value is the string `"movie"`, TV otherwise |
| Pickers.TagMultiOutcome | app/media/media.py:409-414 | The final tag applies to a record and leaves `None` and `{}` alone |
| Pickers.Multi | app/media/media.py:369-414 | `None` iff the search raised; `{}` for no results. The last direct match among movie and TV items wins. Otherwise the detail of the last confirmed item among the first five. The winner is tagged |
| Pickers.MultiConfirmedFound | app/media/media.py:399-407 | The item the expansion pass settles on always has a detail record |
| Pickers.MultiExpansionIsTaggedTv | app/media/media.py:398-411 | With no direct match, a record is found iff one of the first five movie or TV items is confirmed, and such a record is always tagged TV |
| Pickers.MultiTagged | app/media/media.py:409-411 | Whatever the multi picker finds is tagged MOVIE or TV |
| Pickers.Tag | app/media/media.py:163-165 | Only a record's `media_type` changes; `None` and `{}` pass through |
| Pickers.MovieOverYears | app/media/media.py:154-171 | The first attempt that finds wins, tagged MOVIE. It finds iff some attempt finds, and otherwise yields the last attempt's outcome |
| Pickers.SearchTmdb | app/media/media.py:129-198 | An empty name yields `None`; a found record is tagged with the searched type |
| Pickers.MovieYearOrder | app/media/media.py:154-171 | With a year, movies are tried for the year, then year+1, then year-1, stopping at the first hit; otherwise the year-1 outcome |
| Pickers.TvDispatch | app/media/media.py:172-184 | The season picker runs only with a media year and a non-zero season. When it does not find, the TV by-name picker with the first-air year decides |
| Pickers.YearPrefixExample | app/media/media.py:227-228 | The date `2022-12-07` matches the year 2022 and no other |
| Web.KeepLinks | app/media/media.py:434-441 | The kept links are distinct, and are exactly the scraped links that are non-empty and start with `/tv` or `/movie` |
| Web.WebSearch | app/media/media.py:417-469 | Empty name: `None`. Chinese name: `{}`. No usable page, or not exactly one title link: `None`. Otherwise the detail of the link's last path segment, typed by the link. A TV request never yields a movie |
| Web.WebSingleLink | app/media/media.py:442-461 | A page whose only title link is `l` yields `l`'s detail outcome, or `{}` when a TV request meets an existing movie |
| Web.WebAmbiguous | app/media/media.py:440-469 | Two different title links on the page never yield a record |
| Keyword.FourthBoundIsZero | app/media/media.py:1829 | The bound `n >> 2 + n >> 1` is 0 for every count |
| Keyword.Bucket | app/media/media.py:1810-1831 | A rank's weight comes from the third table below 5 terms, the second below 10 and the first otherwise; the first two ranks take that table's first weight |
| Keyword.FourthWeightUnused | app/media/media.py:1823-1831 | For 10 or more terms the ranks score W1[0], W1[1] below n/4, W1[2] below n/2 and W1[4] after; W1[3] is never used |
| Keyword.BucketDecays | app/media/media.py:1810-1831 | With non-increasing weight tables an earlier rank never scores below a later one, for every count |
| Keyword.Bump | app/media/media.py:1832-1835 | A present key keeps its place and gains the score; an absent key is appended with it; no other score changes |
| Keyword.CalFrom | app/media/media.py:1810-1835 | Earlier keys keep their order. The keys are the old ones plus the lower-cased terms. No duplicate keys are introduced |
| Keyword.CalScore | app/media/media.py:1810-1835 | The keys are the old ones, in their old order, plus every lower-cased term; no duplicate key is introduced |
| Keyword.CalScoreAccumulates | app/media/media.py:1810-1835 | Each key's score grows by exactly the bucket weights of the terms that lower-case to it; a key is present iff it was before or some term lower-cases to it |
| Keyword.CalFromScore | app/media/media.py:1811-1835 | The accumulation from any rank on adds exactly the reference contribution of the remaining terms |
| Keyword.CaseInsensitive | app/media/media.py:1832-1835 | Term lists that agree after lower-casing produce the same scores |
| Keyword.FirstMax | app/media/media.py:1872 | The result is first in a stable descending sort: no entry scores higher, and every earlier entry scores strictly lower |
| Keyword.FirstMaxUnique | app/media/media.py:1872 | At most one entry is first in that order |
| Keyword.Leader | app/media/media.py:1872-1877 | `ret[0]` is the first entry with the highest score |
| Keyword.RunnerUp | app/media/media.py:1872-1878 | `ret[1]` is the first entry, other than the leader, with the highest remaining score |
| Keyword.TieBreakChoice | app/media/media.py:1874-1896 | The keyword is the leader's or the runner-up's text. The runner-up's is chosen exactly when the leader's text occurs in it, the leader's truncated score is below 100, its lead is within the threshold, and removing the leader's text from the runner-up's and stripping does not leave the leader's text |
| Keyword.TieBreakSingle | app/media/media.py:1874-1875 | A single entry wins |
| Keyword.TieBreakIsKey | app/media/media.py:1874-1896 | The keyword is always one of the scored texts |
| Keyword.TieBreak | app/media/media.py:1872-1896 | The keyword is the leader's text or, with two or more entries, the runner-up's |
| Keyword.BingScores | app/media/media.py:1842-1859 | No page or no surviving terms: no scores and no movie flag. Otherwise the flag is set iff the page has a panel title and the Movie marker |
| Keyword.BingScoresScore | app/media/media.py:1847-1859 | A key scores 200 if it is the panel title without its year suffix, plus the weights of the terms that lower-case to it; it is a key iff one of the two applies |
| Keyword.BaiduScores | app/media/media.py:1860-1869 | Baidu scoring keeps every earlier key, and without surviving terms leaves the scores as they were |
| Keyword.BaiduScoresScore | app/media/media.py:1860-1869 | Each key gains exactly the weights of the Baidu terms that lower-case to it |
| Keyword.EngineScores | app/media/media.py:1842-1869 | The movie flag holds iff Bing gave terms, a panel title and the Movie marker |
| Keyword.EngineScoresScore | app/media/media.py:1842-1869 | A key's score is its Bing title seed plus the Bing and Baidu term weights for it; it is a key iff one of those applies |
| Keyword.SearchEngine | app/media/media.py:1795-1898 | An empty name, a name the cleaner empties, or an empty score map yield `(None, False)`. Otherwise the keyword is the tie-break's choice among the scored texts, paired with the Bing movie flag |
| Keyword.SearchEngineMovie | app/media/media.py:1851-1858 | Only a Bing page with surviving terms, an entity title and the Movie marker makes the keyword a movie |
| Keyword.SearchEngineNoPages | app/media/media.py:1842-1871 | With no page from either engine there is no keyword |
| Cache.TypeLabel | app/media/media.py:604 | Each media type's label is non-empty and has no `]` |
| Cache.TypeLabelInjective | app/media/media.py:604 | Different media types have different labels |
| Cache.SplitAtSeparator | app/media/media.py:604 | A separator missing from the part before it fixes where that part ends |
| Cache.MakeCacheKey | app/media/media.py:598-604 | The key opens with `[label]name`, and the year and season texts add at least four more characters |
| Cache.CacheKeyInjective | app/media/media.py:598-604 | For one name and missing or non-negative years, the key `[type]name-year-season` determines the type, the year and the season |
| Cache.EntryFor | app/media/media.py:717-742 | `{}` is stored as `{'id': 0}`. A record is stored with its id, type, image paths and title or name by type, and a year that is truthy iff the date is: the date's first four characters |
| Cache.EntryYearIsMatchedYear | app/media/media.py:727-730 | A record whose date matched year `y` is cached with the year text `str(y)` |
| Cache.Insert | app/media/media.py:717-742 | The entry is stored under the key; every other key keeps its entry |
| Cache.ReadEntry | app/media/media.py:705-712 | An entry with id 0 yields `None`; any other entry is re-fetched by its stored type and id |
| Cache.WriteThenRead | app/media/media.py:700-742 | Reading back a written `{}` gives `None` without a lookup; reading back a record with a non-zero id is a direct lookup of that id and type |
| Cache.ReadBackIsStable | app/media/media.py:700-742 | A record tagged MOVIE or TV reads back with the same tag |
| Text.Contains | app/media/media.py:1879 | `find(p) > -1` holds iff `p` occurs at some position |
| Text.RemoveAll | app/media/media.py:1887 | `replace(p, "")` never lengthens the text and leaves a text without `p` unchanged |
| Text.LastSegment | app/media/media.py:445 | `split('/')[-1]` is a slash-free suffix that is the whole text or follows a slash |
| Text.IntTextInjective | app/media/media.py:228 | `str()` of different integers differs |
| Text.NatTextRoundTrip | app/media/media.py:228 | Reading a non-negative integer's decimal text back gives the integer |
| Text.OptIntTextInjective | app/media/media.py:604 | The f-string rendering of an optional integer determines it; no number renders as `None` |
| Resolve.Structured | app/media/media.py:647-677 | Whatever the structured strategies find is tagged MOVIE or TV |
| Resolve.NoYearIsMultiOnly | app/media/media.py:647-648 | A non-TV name without a year is searched by multi search alone, in every mode |
| Resolve.TvOrder | app/media/media.py:650-662 | TV searches once with the year and season. A yearless retry follows only when that found nothing, there is a year, the mode is NORMAL and the call is not strict |
| Resolve.MovieOrder | app/media/media.py:663-677 | With a year: movie search decides if it finds, then TV with the year, then multi search only when relaxed and both found nothing |
| Resolve.WebStep | app/media/media.py:678-680 | The web fallback runs exactly when enabled and nothing was found, and then the web search of the name decides |
| Resolve.WebMissIsNotCached | app/media/media.py:678-702 | With the keyword fallback off, a structured miss followed by a page with no single title link ends as `None` and leaves the state, and so the key, unwritten |
| Resolve.KeywordStep | app/media/media.py:681-692 | The keyword fallback runs only when enabled and nothing was found |
| Resolve.SupplyHitForcesMulti | app/media/media.py:682-692 | A truthy supplied keyword skips the engines, leaves the supply alone and is always searched with multi search |
| Resolve.SupplyMissRunsEngine | app/media/media.py:682-692 | Otherwise the engine's keyword, even `None`, is stored. A truthy keyword is searched as a movie if the engine said so, else with multi search. No keyword leaves the outcome as it was |
| Resolve.KeywordTagged | app/media/media.py:681-692 | The keyword fallback never produces an untagged record |
| Resolve.Refetch | app/media/media.py:694-698 | A record without genres is re-fetched by its type and id; anything else is unchanged |
| Resolve.SearchPath | app/media/media.py:647-698 | What the search path finds is tagged MOVIE or TV. The keyword supply changes only under the searched name, and not at all with the keyword fallback off |
| Resolve.FallbackOrder | app/media/media.py:647-698 | Each fallback runs only when everything before it found nothing; with both fallbacks off the structured outcome decides |
| Resolve.Effective | app/media/media.py:642-643 | A requested type overrides the parsed one; nothing else in the parsed name changes |
| Resolve.EmptyTitle | app/media/media.py:635-636 | An empty title yields `None` and changes nothing |
| Resolve.NegativeCacheHit | app/media/media.py:703-712 | A cached `{'id': 0}` yields `None`, changes nothing, and gives the same answer whatever TMDB, the web page and the search engines would say |
| Resolve.PositiveCacheHit | app/media/media.py:703-710 | A cached entry with an id becomes one detail lookup of that id and type; no search, web page or engine is consulted and nothing changes |
| Resolve.WriteThrough | app/media/media.py:645-702 | On the search path the outcome is written under the key iff it is not `None`, `{}` as the negative entry, and other keys keep their entries |
| Resolve.SecondCallReadsCache | app/media/media.py:645-742 | After a first call that searched and wrote, a second identical call with the cache on reads the entry back and changes nothing; after a confirmed miss it yields `None` |
| Resolve.FoundIsTagged | app/media/media.py:614-715 | Whatever a resolution finds is tagged MOVIE or TV |
| Resolve.GetMediaInfo | app/media/media.py:614-715 | No MetaInfo iff the title is empty or the parse gives no name or type, and then nothing changes. Otherwise the parse carries the requested type. The cache only grows, and only the request's key can change |

## Left out

- TMDB client calls (search endpoints, movie and TV details) are fields of the `Tmdb` oracle, taking an integer id. A raised exception is the `Raised` reply.
- The string helpers `handler_special_chars`, `upper`, `lower`, `strip`, `is_chinese`, the leading-marker regex with the blacklist cleaner, and the trailing-year regex are uninterpreted fields of `TextOps`.
- The `MetaInfo` parser is the `parse` oracle. The year is an optional integer rendered in decimal, so a year string that is not canonical decimal is not modelled.
- HTTP fetching and lxml/cssselect parsing: `__search_tmdb_web` receives the scraped href list, or `None` for no usable page. A failed page, an empty body and a parse error all collapse into that `None`. `__search_engine` receives each engine's surviving emphasised terms.
- The `difflib` similarity filter works on floating point, so the term lists are given after filtering.
- The conversion of a link's last segment into an id is the `linkId` parameter.
- `__update_tmdbinfo_cn_title` and the `language`, `chinese` and `append_to_response` parameters: the Chinese-title substitution is part of the detail oracle.
- The missing-API-key guards (`if not self.tmdb`, `if not self.search`) are not modelled; the model assumes a configured client.
- `lru_cache` on the web fallback is left out, since it does not change results for a fixed page. The `cacheman` supply store is a map with get and set only. Meta-cache expiry and persistence are left out.
- Concurrency and the mutable `tmdb.language` global are not modelled, because a resolution is sequential.
- Logging is left out.
- `init_config`, `get_media_info_on_files`, the `__dict_*` formatters, `get_tmdb_factinfo`, `get_random_discover_backdrop` and the remaining TMDB wrappers in the file are outside the resolution engine.
- Helpers.MergeSeason: episode lists are sets. The list order, duplicates and the aliasing between target and source lists in `get_intersection_episodes` are not modelled.
- Text.RemoveAll: the contract bounds the result and fixes it when the pattern is absent; the definition, a left-to-right scan, fixes the value. `Helpers.DoubanUrl` states the value the one use relies on.
- Pickers.SeasonMatch: the exception handler inside `__season_match` is not modelled; seasons are well-formed records.
- Keyword.SearchEngine: scores are exact reals. Floating-point rounding of the accumulated weights is not modelled.
- Cache.CacheKeyInjective: it is stated for missing or non-negative years only, because a negative year's text contains the separator `-`.
- The language code and Python's `str.upper`/`str.lower` Unicode behaviour are not modelled; they sit inside the string oracles.
