/**
 * The orchestrator `get_media_info`: parse the title, build the cache key,
 * and either read the cache or run the strategy chain (structured search,
 * then the web fallback, then the keyword fallback), re-fetch a result that
 * lacks genres, and write the outcome through to the cache.
 *
 * Everything outside the decision logic is a parameter of the `World`: the
 * TMDB service, the string helpers, the release-name parser, the scraped
 * pages. The persistent cache and the keyword-supply cache are the `State`
 * threaded through a call.
 */
module Resolve {
  import opened Wrappers
  import opened Text
  import opened Records
  import opened Pickers
  import opened Web
  import opened Keyword
  import opened Cache

  datatype MatchMode = Normal | Strict

  /** The settings `init_config` reads. */
  datatype Config = Config(mode: MatchMode, searchWeb: bool, searchKeyword: bool, keyword: KeywordConfig)

  /** What the release-name parser yields: the name, the type (if recognised), the year, the first season. */
  datatype ParsedName = ParsedName(name: string, mtype: Option<MediaType>, year: Option<int>, beginSeason: Option<int>)

  /** The collaborators a resolution consults. */
  datatype World = World(
    db: Tmdb,
    tx: TextOps,
    parse: (string, Option<string>) -> ParsedName,
    webPage: string -> Option<seq<string>>,
    linkId: string -> int,
    engines: Engines)

  /** The arguments of `get_media_info` that steer resolution. */
  datatype Request = Request(title: string, subtitle: Option<string>, mtype: Option<MediaType>, strict: bool, useCache: bool)

  /** The resolution cache and the `tmdb_supply` keyword cache. */
  datatype State = State(cache: map<string, CacheEntry>, supply: map<string, Option<string>>)

  /** `None` for an empty or unparsable title, else the parsed name (type overridden) with its TMDB outcome. */
  datatype Answer = NoMeta | Meta(parsed: ParsedName, info: Outcome)

  /** The NORMAL-mode relaxations apply: the mode is NORMAL and the call is not strict. */
  predicate Relaxed(cfg: Config, strict: bool)
  {
    cfg.mode == Normal && !strict
  }

  /**
   * The structured strategies: multi search for a non-TV name without a year;
   * for TV the dispatcher with the year and season, then a yearless retry when
   * relaxed; for a movie with a year the movie search, then TV with the year,
   * then multi search when relaxed.
   */
  function Structured(w: World, cfg: Config, t: MediaType, p: ParsedName, strict: bool): (r: Outcome)
    ensures r.Found? ==> r.rec.mediaType == Typed(Movie) || r.rec.mediaType == Typed(Tv)
  {
    if t != Tv && p.year.None? then Multi(w.db, w.tx, p.name)
    else if t == Tv then
      var a := SearchTmdb(w.db, w.tx, p.name, Tv, p.year, p.year, p.beginSeason);
      if !a.Found? && p.year.Some? && Relaxed(cfg, strict) then SearchTmdb(w.db, w.tx, p.name, Tv, None, None, None)
      else a
    else
      var a := SearchTmdb(w.db, w.tx, p.name, Movie, p.year, None, None);
      var b := if a.Found? then a else SearchTmdb(w.db, w.tx, p.name, Tv, p.year, None, None);
      if !b.Found? && Relaxed(cfg, strict) then Multi(w.db, w.tx, p.name) else b
  }

  /** The web fallback, consulted only when enabled and nothing was found. */
  function WebStep(w: World, cfg: Config, t: MediaType, name: string, info: Outcome): (r: Outcome)
    ensures info.Found? || !cfg.searchWeb ==> r == info
    ensures !info.Found? && cfg.searchWeb ==> r == WebSearch(w.db, w.tx, name, t, w.webPage(name), w.linkId)
    ensures r.Found? ==> r.rec.mediaType == Typed(Movie) || r.rec.mediaType == Typed(Tv) || r == info
  {
    if !info.Found? && cfg.searchWeb then WebSearch(w.db, w.tx, name, t, w.webPage(name), w.linkId) else info
  }

  /** `cacheman["tmdb_supply"].get(name)`. */
  function SupplyOf(supply: map<string, Option<string>>, name: string): Option<string>
  {
    if name in supply then supply[name] else None
  }

  /**
   * The keyword fallback: a truthy supplied keyword is reused (and, since
   * `is_movie` is not stored, searched with multi search); otherwise the
   * engine runs and its keyword, even `None`, is stored. A truthy keyword is
   * searched as a movie if the engine said so, else with multi search.
   */
  function KeywordStep(w: World, cfg: Config, name: string, info: Outcome, supply: map<string, Option<string>>)
    : (res: (Outcome, map<string, Option<string>>))
    requires ValidWeights(cfg.keyword.weights)
    ensures info.Found? || !cfg.searchKeyword ==> res == (info, supply)
  {
    if info.Found? || !cfg.searchKeyword then (info, supply)
    else
      var cached := SupplyOf(supply, name);
      var (kw, isMovie, supply') :=
        if Present(cached) then (cached, false, supply)
        else
          var e := SearchEngine(w.tx, cfg.keyword, w.engines, name);
          (e.0, e.1, supply[name := e.0]);
      var r :=
        if Present(kw) then
          if isMovie then SearchTmdb(w.db, w.tx, kw.value, Movie, None, None, None) else Multi(w.db, w.tx, kw.value)
        else info;
      (r, supply')
  }

  /** A found record without genres is fetched again by its type and id. */
  function Refetch(w: World, info: Outcome): (r: Outcome)
    ensures !info.Found? ==> r == info
    ensures info.Found? && info.rec.genres != [] ==> r == info
    ensures info.Found? && info.rec.genres == [] ==> r == GetTmdbInfo(w.db, info.rec.mediaType, info.rec.id)
  {
    if info.Found? && info.rec.genres == [] then GetTmdbInfo(w.db, info.rec.mediaType, info.rec.id) else info
  }

  /**
   * The search path: strategies, fallbacks and re-fetch, with the updated
   * keyword supply. Whatever it finds is tagged MOVIE or TV, and the supply
   * changes at most under the searched name.
   */
  function SearchPath(w: World, cfg: Config, t: MediaType, p: ParsedName, strict: bool, supply: map<string, Option<string>>)
    : (res: (Outcome, map<string, Option<string>>))
    requires ValidWeights(cfg.keyword.weights)
    ensures res.0.Found? ==> res.0.rec.mediaType == Typed(Movie) || res.0.rec.mediaType == Typed(Tv)
    ensures !cfg.searchKeyword ==> res.1 == supply
    ensures forall n :: n != p.name ==> (n in res.1 <==> n in supply) && (n in supply ==> res.1[n] == supply[n])
  {
    var s := Structured(w, cfg, t, p, strict);
    var v := WebStep(w, cfg, t, p.name, s);
    KeywordTagged(w, cfg, p.name, v, supply);
    var (k, supply') := KeywordStep(w, cfg, p.name, v, supply);
    (Refetch(w, k), supply')
  }

  /** The cache key of a parsed name under type `t`. */
  function KeyOf(t: MediaType, p: ParsedName): string
  {
    MakeCacheKey(t, p.name, p.year, p.beginSeason)
  }

  /** The parsed name with the requested type, if any, overriding the parsed one. */
  function Effective(req: Request, p: ParsedName): (q: ParsedName)
    requires p.mtype.Some?
    ensures q.mtype.Some? && q == p.(mtype := q.mtype)
    ensures req.mtype.Some? ==> q.mtype == req.mtype
  {
    if req.mtype.Some? then p.(mtype := req.mtype) else p
  }

  /**
   * `get_media_info`. An empty title, or one the parser gives no name or no
   * type, yields `None` and leaves the state alone. Otherwise the search path
   * runs when caching is off or the key is absent, and its outcome is written
   * through unless it is `None`; else the cached entry is read back.
   */
  function GetMediaInfo(w: World, cfg: Config, req: Request, st: State): (res: (Answer, State))
    requires ValidWeights(cfg.keyword.weights)
    ensures var p0 := w.parse(req.title, req.subtitle);
      res.0.NoMeta? <==> req.title == "" || p0.name == "" || p0.mtype.None?
    ensures res.0.NoMeta? ==> res.1 == st
    ensures res.0.Meta? ==> res.0.parsed == Effective(req, w.parse(req.title, req.subtitle))
    ensures forall k :: k in st.cache ==> k in res.1.cache
    ensures res.0.Meta? ==> forall k :: k in st.cache && k != KeyOf(res.0.parsed.mtype.value, res.0.parsed) ==>
      res.1.cache[k] == st.cache[k]
  {
    if req.title == "" then (NoMeta, st)
    else
      var p0 := w.parse(req.title, req.subtitle);
      if p0.name == "" || p0.mtype.None? then (NoMeta, st)
      else
        var p := Effective(req, p0);
        var t := p.mtype.value;
        var key := KeyOf(t, p);
        if !req.useCache || key !in st.cache then
          var (info, supply') := SearchPath(w, cfg, t, p, req.strict, st.supply);
          var cache' := if info.Null? then st.cache else Insert(st.cache, key, info);
          (Meta(p, info), State(cache', supply'))
        else
          (Meta(p, ReadEntry(w.db, st.cache[key])), st)
  }

  /** An empty title yields `None` and changes nothing. */
  lemma EmptyTitle(w: World, cfg: Config, req: Request, st: State)
    requires ValidWeights(cfg.keyword.weights)
    requires req.title == ""
    ensures GetMediaInfo(w, cfg, req, st) == (NoMeta, st)
  {
  }

  /**
   * A negative entry answers `None` at once: the state is unchanged, and the
   * answer is the same whatever the TMDB service, the web pages and the
   * search engines would have said.
   */
  lemma NegativeCacheHit(w: World, cfg: Config, req: Request, st: State, db': Tmdb, pages: string -> Option<seq<string>>, engines: Engines)
    requires ValidWeights(cfg.keyword.weights)
    requires req.title != "" && req.useCache
    requires var p0 := w.parse(req.title, req.subtitle);
      && p0.name != "" && p0.mtype.Some?
      && var p := Effective(req, p0);
         KeyOf(p.mtype.value, p) in st.cache && st.cache[KeyOf(p.mtype.value, p)].id == 0
    ensures var res := GetMediaInfo(w, cfg, req, st);
      && res.0.Meta? && res.0.info.Null? && res.1 == st
      && res == GetMediaInfo(w.(db := db', webPage := pages, engines := engines), cfg, req, st)
  {
  }

  /**
   * A positive entry becomes one direct detail lookup of the stored id as the
   * stored type: the state is unchanged, and no search, web page or search
   * engine is consulted.
   */
  lemma PositiveCacheHit(w: World, cfg: Config, req: Request, st: State,
                         searches: Tmdb, pages: string -> Option<seq<string>>, engines: Engines)
    requires ValidWeights(cfg.keyword.weights)
    requires req.title != "" && req.useCache
    requires searches.details == w.db.details
    requires var p0 := w.parse(req.title, req.subtitle);
      && p0.name != "" && p0.mtype.Some?
      && var p := Effective(req, p0);
         KeyOf(p.mtype.value, p) in st.cache && st.cache[KeyOf(p.mtype.value, p)].id != 0
    ensures var p := Effective(req, w.parse(req.title, req.subtitle));
      var e := st.cache[KeyOf(p.mtype.value, p)];
      var res := GetMediaInfo(w, cfg, req, st);
      && res == (Meta(p, GetTmdbInfo(w.db, e.mtype, e.id)), st)
      && res == GetMediaInfo(w.(db := searches, webPage := pages, engines := engines), cfg, req, st)
  {
  }

  /**
   * On the search path the outcome is written under the key exactly when it
   * is not `None` (a confirmed miss as the negative entry), and every other
   * key keeps its entry.
   */
  lemma WriteThrough(w: World, cfg: Config, req: Request, st: State)
    requires ValidWeights(cfg.keyword.weights)
    requires req.title != ""
    requires var p0 := w.parse(req.title, req.subtitle);
      && p0.name != "" && p0.mtype.Some?
      && var p := Effective(req, p0);
         !req.useCache || KeyOf(p.mtype.value, p) !in st.cache
    ensures var p := Effective(req, w.parse(req.title, req.subtitle));
      var key := KeyOf(p.mtype.value, p);
      var res := GetMediaInfo(w, cfg, req, st);
      var info := res.0.info;
      var cache' := res.1.cache;
      && res.0.Meta?
      && info == SearchPath(w, cfg, p.mtype.value, p, req.strict, st.supply).0
      && (!info.Null? ==> key in cache' && cache'[key] == EntryFor(info))
      && (info.NotFound? ==> cache'[key] == Negative)
      && (info.Null? ==> cache' == st.cache)
      && (forall k :: k != key ==> (k in cache' <==> k in st.cache) && (k in st.cache ==> cache'[k] == st.cache[k]))
  {
  }

  /**
   * Asking again with the cache on does no search: after a first call that
   * searched and wrote an entry, the second answer is the read-back of that
   * entry (`None` after a confirmed miss, a direct id lookup after a hit),
   * and the second call changes nothing.
   */
  lemma SecondCallReadsCache(w: World, cfg: Config, req: Request, st: State)
    requires ValidWeights(cfg.keyword.weights)
    requires req.title != "" && req.useCache
    requires var p0 := w.parse(req.title, req.subtitle);
      && p0.name != "" && p0.mtype.Some?
      && var p := Effective(req, p0);
         KeyOf(p.mtype.value, p) !in st.cache
    requires !GetMediaInfo(w, cfg, req, st).0.info.Null?
    ensures var first := GetMediaInfo(w, cfg, req, st);
      var second := GetMediaInfo(w, cfg, req, first.1);
      && second.1 == first.1
      && second.0 == Meta(first.0.parsed, ReadEntry(w.db, EntryFor(first.0.info)))
      && (first.0.info.NotFound? ==> second.0.info.Null?)
  {
    WriteThrough(w, cfg, req, st);
  }

  /**
   * With the web fallback on and the keyword fallback off, a name the
   * structured strategies miss and whose web page has no single title link
   * resolves to `None`, and nothing is written: the key stays absent, so the
   * next call searches again.
   */
  lemma WebMissIsNotCached(w: World, cfg: Config, req: Request, st: State)
    requires ValidWeights(cfg.keyword.weights)
    requires cfg.searchWeb && !cfg.searchKeyword
    requires req.title != ""
    requires var p0 := w.parse(req.title, req.subtitle);
      && p0.name != "" && p0.mtype.Some?
      && var p := Effective(req, p0);
         && (!req.useCache || KeyOf(p.mtype.value, p) !in st.cache)
         && !Structured(w, cfg, p.mtype.value, p, req.strict).Found?
         && !w.tx.isChinese(p.name)
         && (w.webPage(p.name).None? || |KeepLinks(w.webPage(p.name).value)| != 1)
    ensures var res := GetMediaInfo(w, cfg, req, st);
      res.0.Meta? && res.0.info.Null? && res.1 == st
  {
  }

  /** Whatever a resolution finds is tagged MOVIE or TV. */
  lemma FoundIsTagged(w: World, cfg: Config, req: Request, st: State)
    requires ValidWeights(cfg.keyword.weights)
    requires var res := GetMediaInfo(w, cfg, req, st);
      res.0.Meta? && res.0.info.Found?
    ensures var r := GetMediaInfo(w, cfg, req, st).0.info.rec;
      r.mediaType == Typed(Movie) || r.mediaType == Typed(Tv)
  {
    var p := Effective(req, w.parse(req.title, req.subtitle));
    var t := p.mtype.value;
    var key := KeyOf(t, p);
    if !req.useCache || key !in st.cache {
      var s := Structured(w, cfg, t, p, req.strict);
      var v := WebStep(w, cfg, t, p.name, s);
      KeywordTagged(w, cfg, p.name, v, st.supply);
    }
  }

  lemma KeywordTagged(w: World, cfg: Config, name: string, info: Outcome, supply: map<string, Option<string>>)
    requires ValidWeights(cfg.keyword.weights)
    requires info.Found? ==> info.rec.mediaType == Typed(Movie) || info.rec.mediaType == Typed(Tv)
    ensures var r := KeywordStep(w, cfg, name, info, supply).0;
      r.Found? ==> r.rec.mediaType == Typed(Movie) || r.rec.mediaType == Typed(Tv)
  {
    if !info.Found? && cfg.searchKeyword {
      var cached := SupplyOf(supply, name);
      var kw := if Present(cached) then cached else SearchEngine(w.tx, cfg.keyword, w.engines, name).0;
      if Present(kw) && Multi(w.db, w.tx, kw.value).Found? {
        MultiTagged(w.db, w.tx, kw.value);
      }
    }
  }

  /** A non-TV name without a year is resolved by multi search alone among the structured strategies, whatever the mode. */
  lemma NoYearIsMultiOnly(w: World, cfg: Config, t: MediaType, p: ParsedName, strict: bool)
    requires t != Tv && p.year.None?
    ensures Structured(w, cfg, t, p, strict) == Multi(w.db, w.tx, p.name)
  {
  }

  /**
   * Without the NORMAL-mode relaxations a TV name is searched once, with its
   * year and season; a relaxed search retries without the year only when the
   * first one found nothing and there was a year.
   */
  lemma TvOrder(w: World, cfg: Config, p: ParsedName, strict: bool)
    ensures var first := SearchTmdb(w.db, w.tx, p.name, Tv, p.year, p.year, p.beginSeason);
      var r := Structured(w, cfg, Tv, p, strict);
      && (first.Found? || p.year.None? || !Relaxed(cfg, strict) ==> r == first)
      && (!first.Found? && p.year.Some? && Relaxed(cfg, strict) ==> r == SearchTmdb(w.db, w.tx, p.name, Tv, None, None, None))
  {
  }

  /**
   * A non-TV name with a year: the movie search decides if it finds; then the
   * TV search with the year; multi search is consulted only when relaxed and
   * both found nothing.
   */
  lemma MovieOrder(w: World, cfg: Config, t: MediaType, p: ParsedName, strict: bool)
    requires t != Tv && p.year.Some?
    ensures var a := SearchTmdb(w.db, w.tx, p.name, Movie, p.year, None, None);
      var b := SearchTmdb(w.db, w.tx, p.name, Tv, p.year, None, None);
      var r := Structured(w, cfg, t, p, strict);
      && (a.Found? ==> r == a)
      && (!a.Found? && (b.Found? || !Relaxed(cfg, strict)) ==> r == b)
      && (!a.Found? && !b.Found? && Relaxed(cfg, strict) ==> r == Multi(w.db, w.tx, p.name))
  {
  }

  /**
   * A truthy keyword already supplied for the name is reused without running
   * the engines, and is always searched with multi search (whether the
   * engines would call it a movie is not stored).
   */
  lemma SupplyHitForcesMulti(w: World, cfg: Config, name: string, info: Outcome, supply: map<string, Option<string>>, engines: Engines)
    requires ValidWeights(cfg.keyword.weights)
    requires !info.Found? && cfg.searchKeyword
    requires name in supply && Present(supply[name])
    ensures KeywordStep(w, cfg, name, info, supply) == (Multi(w.db, w.tx, supply[name].value), supply)
    ensures KeywordStep(w, cfg, name, info, supply) == KeywordStep(w.(engines := engines), cfg, name, info, supply)
  {
  }

  /**
   * Without a usable supplied keyword the engines run once, their keyword is
   * stored for the name (even when there is none), and a movie verdict
   * searches movies by the keyword while any other searches multi.
   */
  lemma SupplyMissRunsEngine(w: World, cfg: Config, name: string, info: Outcome, supply: map<string, Option<string>>)
    requires ValidWeights(cfg.keyword.weights)
    requires !info.Found? && cfg.searchKeyword
    requires !(name in supply && Present(supply[name]))
    ensures var e := SearchEngine(w.tx, cfg.keyword, w.engines, name);
      var res := KeywordStep(w, cfg, name, info, supply);
      && res.1 == supply[name := e.0]
      && (!Present(e.0) ==> res.0 == info)
      && (Present(e.0) && e.1 ==> res.0 == SearchTmdb(w.db, w.tx, e.0.value, Movie, None, None, None))
      && (Present(e.0) && !e.1 ==> res.0 == Multi(w.db, w.tx, e.0.value))
  {
  }

  /** The fallbacks are tried in order, each only when everything before it found nothing. */
  lemma FallbackOrder(w: World, cfg: Config, t: MediaType, p: ParsedName, strict: bool, supply: map<string, Option<string>>)
    requires ValidWeights(cfg.keyword.weights)
    ensures var s := Structured(w, cfg, t, p, strict);
      var v := WebStep(w, cfg, t, p.name, s);
      var res := SearchPath(w, cfg, t, p, strict, supply);
      && (s.Found? ==> v == s && res == (Refetch(w, s), supply))
      && (v.Found? ==> res == (Refetch(w, v), supply))
      && (!cfg.searchWeb && !cfg.searchKeyword ==> res == (Refetch(w, s), supply))
  {
  }
}
