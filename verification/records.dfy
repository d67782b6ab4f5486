/**
 * TMDB records as the resolver reads them, the outcome of a lookup, and the
 * TMDB service itself as a set of oracle functions.
 *
 * A record stands for a non-empty TMDB dictionary; a missing key is `None`
 * for scalar entries and the empty sequence for list entries (the source
 * reads every list through `.get(key, {})`/`or []`).
 */
module Records {
  import opened Wrappers

  /** The source's MediaType enumeration. */
  datatype MediaType = Movie | Tv | Anime | Unknown

  /**
   * The `media_type` entry of a record: absent, the raw string a multi search
   * returns (`"movie"`, `"tv"`, `"person"`), or a MediaType the resolver wrote.
   */
  datatype MediaTag = Untagged | Raw(s: string) | Typed(t: MediaType)

  datatype Genre = Genre(id: Option<int>, name: Option<string>)

  /** One entry of a TV record's `seasons` list. */
  datatype Season = Season(airDate: Option<string>, seasonNumber: Option<int>, episodeCount: int)

  /** One entry of `translations.translations`; `data.title` for movies, `data.name` for TV. */
  datatype Translation = Translation(title: Option<string>, name: Option<string>)

  datatype Record = Record(
    id: int,
    title: Option<string>,
    originalTitle: Option<string>,
    name: Option<string>,
    originalName: Option<string>,
    releaseDate: Option<string>,
    firstAirDate: Option<string>,
    mediaType: MediaTag,
    genres: seq<Genre>,
    genreIds: seq<Option<int>>,
    seasons: seq<Season>,
    movieAltTitles: seq<Option<string>>,  // alternative_titles.titles[].title
    tvAltTitles: seq<Option<string>>,     // alternative_titles.results[].title
    translations: seq<Translation>,
    posterPath: Option<string>,
    backdropPath: Option<string>)

  /**
   * What a lookup hands back: Python `None` (an error, or nothing usable),
   * `{}` (searched and not found), or a record. Only `Found` is truthy.
   */
  datatype Outcome = Null | NotFound | Found(rec: Record)

  /** A search call either raises or returns a (possibly empty) result list. */
  datatype Reply = Raised | Results(items: seq<Record>)

  /**
   * The TMDB service. `details` returns `None` when the client raises, `{}`
   * when it returns nothing, and otherwise the record (already carrying the
   * localized title the source substitutes).
   */
  datatype Tmdb = Tmdb(
    searchMovies: (string, Option<int>) -> Reply,  // search.movies, with "year" when given
    searchTv: (string, Option<int>) -> Reply,      // search.tv_shows, with "first_air_date_year" when given
    searchMulti: string -> Reply,                  // search.multi
    details: (MediaType, int) -> Outcome)          // movie.details / tv.details

  /** The genre ids of a detail record, in order. */
  function GenreIds(genres: seq<Genre>): (r: seq<Option<int>>)
    ensures |r| == |genres|
    ensures forall i :: 0 <= i < |r| ==> r[i] == genres[i].id
  {
    if genres == [] then [] else GenreIds(genres[..|genres| - 1]) + [genres[|genres| - 1].id]
  }

  /** `get_tmdb_info` asks the movie endpoint only for MediaType.MOVIE and the TV endpoint otherwise. */
  function DetailType(kind: MediaTag): (t: MediaType)
    ensures t == Movie <==> kind == Typed(Movie)
    ensures t == Movie || t == Tv
  {
    if kind == Typed(Movie) then Movie else Tv
  }

  /**
   * `get_tmdb_info`: the detail record for (kind, id), tagged with the
   * endpoint's media type and given its `genre_ids`; a falsy detail is passed
   * through unchanged.
   */
  function GetTmdbInfo(db: Tmdb, kind: MediaTag, id: int): (r: Outcome)
    ensures var d := db.details(DetailType(kind), id);
      && (r.Null? <==> d.Null?)
      && (r.NotFound? <==> d.NotFound?)
      && (r.Found? <==> d.Found?)
      && (r.Found? ==> r.rec.(mediaType := d.rec.mediaType, genreIds := d.rec.genreIds) == d.rec)
    ensures r.Found? ==> (r.rec.mediaType == Typed(Movie) <==> kind == Typed(Movie))
    ensures r.Found? ==> r.rec.mediaType == Typed(Movie) || r.rec.mediaType == Typed(Tv)
    ensures r.Found? ==> |r.rec.genreIds| == |r.rec.genres|
    ensures r.Found? ==> forall i :: 0 <= i < |r.rec.genres| ==> r.rec.genreIds[i] == r.rec.genres[i].id
  {
    var t := DetailType(kind);
    match db.details(t, id)
    case Found(d) => Found(d.(mediaType := Typed(t), genreIds := GenreIds(d.genres)))
    case other => other
  }

  /** The date a media type's year is read from: `release_date` for movies, `first_air_date` otherwise. */
  function DateOf(kind: MediaType, c: Record): Option<string>
  {
    if kind == Movie then c.releaseDate else c.firstAirDate
  }

  /** `title` for movies, `name` otherwise. */
  function TitleOf(kind: MediaType, c: Record): Option<string>
  {
    if kind == Movie then c.title else c.name
  }

  /** `original_title` for movies, `original_name` otherwise. */
  function OriginalOf(kind: MediaType, c: Record): Option<string>
  {
    if kind == Movie then c.originalTitle else c.originalName
  }
}
