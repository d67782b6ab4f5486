/**
 * The four candidate pickers and the type dispatcher `__search_tmdb`.
 *
 * Every picker runs a direct pass over the search results (a title or
 * original title equal to the file name) and, only when that finds nothing,
 * an expansion pass that fetches each candidate's alternative and translated
 * names and compares against those. A search that raises yields `Null`; an
 * empty or unmatched result yields `NotFound`.
 *
 * The scanning loops are written over predicate parameters (`eligible`,
 * `confirm`, ...) and instantiated with the tests below, so each loop's
 * behaviour is stated once.
 */
module Pickers {
  import opened Wrappers
  import opened Seqs
  import opened Text
  import opened Records
  import opened Names
  import opened Helpers

  /** A truthy date whose first four characters are `str(year)`. */
  predicate YearMatches(date: Option<string>, year: int)
  {
    Present(date) && Prefix4(date.value) == IntText(year)
  }

  /** The candidate's title or original title equals the file name. */
  predicate TitleHit(tx: TextOps, kind: MediaType, name: string, c: Record)
  {
    CompareNames(tx, name, NamesOf(TitleOf(kind, c))) || CompareNames(tx, name, NamesOf(OriginalOf(kind, c)))
  }

  /** Candidates a by-name picker accepts at all: every one without a year, else those dated in that year. */
  function EligibleTest(kind: MediaType, year: Option<int>): Record -> bool
  {
    (c: Record) => year.None? || YearMatches(DateOf(kind, c), year.value)
  }

  /** The direct-pass test of a by-name picker: eligible, and the title or original title matches. */
  function DirectTest(tx: TextOps, kind: MediaType, name: string, year: Option<int>): Record -> bool
  {
    (c: Record) => EligibleTest(kind, year)(c) && TitleHit(tx, kind, name, c)
  }

  /** The candidate's harvested alternate names contain the file name. */
  predicate Confirmed(db: Tmdb, tx: TextOps, kind: MediaType, name: string, c: Record)
  {
    CompareNames(tx, name, Many(AllNames(db, kind, c.id).1))
  }

  function ConfirmTest(db: Tmdb, tx: TextOps, kind: MediaType, name: string): Record -> bool
  {
    (c: Record) => Confirmed(db, tx, kind, name, c)
  }

  /** The detail record fetched while harvesting a candidate's names. */
  function DetailOf(db: Tmdb, kind: MediaType): Record -> Outcome
  {
    (c: Record) => AllNames(db, kind, c.id).0
  }

  /** A confirmed candidate's detail is a record typed by the kind it was fetched as. */
  lemma ConfirmedDetail(db: Tmdb, tx: TextOps, kind: MediaType, name: string, c: Record)
    requires Confirmed(db, tx, kind, name, c)
    ensures DetailOf(db, kind)(c).Found?
    ensures DetailOf(db, kind)(c).rec.mediaType == Typed(if kind == Movie then Movie else Tv)
  {
    AllNamesSpec(db, kind, c.id);
  }

  /** How many eligible candidates the expansion pass consults (the loop breaks once `index > 5`). */
  const ExpandLimit: nat := 6

  /** The eligible candidates the expansion pass can reach. */
  function Window(kind: MediaType, year: Option<int>, cs: seq<Record>): (w: seq<Record>)
    ensures |w| <= ExpandLimit
    ensures forall c :: c in w ==> c in cs && EligibleTest(kind, year)(c)
  {
    Take(Filter(cs, EligibleTest(kind, year)), ExpandLimit)
  }

  /**
   * The expansion loop of the by-name pickers as written: skip ineligible
   * candidates, count the eligible ones, return the detail of the first
   * confirmed one, and stop after the sixth eligible one.
   */
  function ExpandLoop<T, U>(cs: seq<T>, eligible: T -> bool, confirm: T -> bool,
                            detail: T -> U, none: U, index: nat): U
    requires index < ExpandLimit
    decreases |cs|
  {
    if cs == [] then none
    else if !eligible(cs[0]) then ExpandLoop(cs[1..], eligible, confirm, detail, none, index)
    else if confirm(cs[0]) then detail(cs[0])
    else if index + 1 >= ExpandLimit then none
    else ExpandLoop(cs[1..], eligible, confirm, detail, none, index + 1)
  }

  /** The loop yields the first confirmed candidate among the first `6 - index` eligible ones. */
  lemma {:induction false} ExpandLoopIsFirstInWindow<T(!new), U>(cs: seq<T>, eligible: T -> bool,
                                                     confirm: T -> bool, detail: T -> U, none: U, index: nat)
    requires index < ExpandLimit
    ensures ExpandLoop(cs, eligible, confirm, detail, none, index)
      == FirstMap(Take(Filter(cs, eligible), ExpandLimit - index), confirm, detail).GetOr(none)
    decreases |cs|
  {
    var goal := FirstMap(Take(Filter(cs, eligible), ExpandLimit - index), confirm, detail).GetOr(none);
    if cs == [] {
      assert ExpandLoop(cs, eligible, confirm, detail, none, index) == goal;
    } else {
      var n := ExpandLimit - index;
      TakeFilterStep(cs, eligible, n);
      if eligible(cs[0]) {
        var rest := Take(Filter(cs[1..], eligible), n - 1);
        var w := [cs[0]] + rest;
        assert Take(Filter(cs, eligible), n) == w;
        assert w[0] == cs[0] && w[1..] == rest;
        FirstMapStep(w, confirm, detail);
        if !confirm(cs[0]) {
          assert FirstMap(w, confirm, detail) == FirstMap(rest, confirm, detail);
          if index + 1 < ExpandLimit {
            ExpandLoopIsFirstInWindow(cs[1..], eligible, confirm, detail, none, index + 1);
            assert ExpandLimit - (index + 1) == n - 1;
            assert ExpandLoop(cs[1..], eligible, confirm, detail, none, index + 1)
              == FirstMap(rest, confirm, detail).GetOr(none);
            assert goal == FirstMap(w, confirm, detail).GetOr(none);
            assert ExpandLoop(cs, eligible, confirm, detail, none, index)
              == ExpandLoop(cs[1..], eligible, confirm, detail, none, index + 1);
          } else {
            assert rest == [];
            assert ExpandLoop(cs, eligible, confirm, detail, none, index) == goal;
          }
        } else {
          assert ExpandLoop(cs, eligible, confirm, detail, none, index) == goal;
        }
      } else {
        ExpandLoopIsFirstInWindow(cs[1..], eligible, confirm, detail, none, index);
        assert ExpandLoop(cs, eligible, confirm, detail, none, index) == goal;
      }
    }
  }

  /** The search a by-name picker issues: movies with `year`, or TV shows with `first_air_date_year`. */
  function SearchByName(db: Tmdb, kind: MediaType, name: string, year: Option<int>): (r: Reply)
    ensures kind == Movie ==> r == db.searchMovies(name, year)
    ensures kind != Movie ==> r == db.searchTv(name, year)
  {
    if kind == Movie then db.searchMovies(name, year) else db.searchTv(name, year)
  }

  /**
   * `__search_movie_by_name` (kind Movie) and `__search_tv_by_name` (kind Tv):
   * the first direct hit in list order; failing that, the detail of the first
   * candidate among the first six eligible ones whose alternate names match.
   */
  function ByName(db: Tmdb, tx: TextOps, kind: MediaType, name: string, year: Option<int>): (r: Outcome)
    ensures r.Null? <==> SearchByName(db, kind, name, year).Raised?
    ensures SearchByName(db, kind, name, year) == Results([]) ==> r == NotFound
    ensures SearchByName(db, kind, name, year).Results? ==>
      var cs := SearchByName(db, kind, name, year).items;
      forall k :: FirstWhere(cs, DirectTest(tx, kind, name, year), k) ==> r == Found(cs[k])
    ensures SearchByName(db, kind, name, year).Results? ==>
      var cs := SearchByName(db, kind, name, year).items;
      (forall k :: 0 <= k < |cs| ==> !DirectTest(tx, kind, name, year)(cs[k])) ==>
        r == FirstMap(Window(kind, year, cs), ConfirmTest(db, tx, kind, name), DetailOf(db, kind)).GetOr(NotFound)
  {
    match SearchByName(db, kind, name, year)
    case Raised => Null
    case Results(cs) =>
      if |cs| == 0 then NotFound
      else
        match Find(cs, DirectTest(tx, kind, name, year))
        case Some(k) =>
          FirstWhereUnique(cs, DirectTest(tx, kind, name, year), k);
          Found(cs[k])
        case None =>
          ExpandLoopIsFirstInWindow(cs, EligibleTest(kind, year), ConfirmTest(db, tx, kind, name), DetailOf(db, kind), NotFound, 0);
          ConfirmedFound(db, tx, kind, name, Window(kind, year, cs));
          ExpandLoop(cs, EligibleTest(kind, year), ConfirmTest(db, tx, kind, name), DetailOf(db, kind), NotFound, 0)
  }

  /** The candidate the by-name expansion pass settles on has a detail record. */
  lemma ConfirmedFound(db: Tmdb, tx: TextOps, kind: MediaType, name: string, ws: seq<Record>)
    ensures var o := FirstMap(ws, ConfirmTest(db, tx, kind, name), DetailOf(db, kind));
      o.Some? ==> o.value.Found?
  {
    var o := FirstMap(ws, ConfirmTest(db, tx, kind, name), DetailOf(db, kind));
    if o.Some? {
      var k :| FirstWhere(ws, ConfirmTest(db, tx, kind, name), k) && o.value == DetailOf(db, kind)(ws[k]);
      ConfirmedDetail(db, tx, kind, name, ws[k]);
    }
  }

  /**
   * What a by-name picker finds is either a search result passing the direct
   * test, or the detail record (typed by the picker's kind) of a confirmed
   * candidate among the first six eligible ones, and the latter only when no
   * result passes the direct test.
   */
  lemma ByNameFound(db: Tmdb, tx: TextOps, kind: MediaType, name: string, year: Option<int>)
    requires ByName(db, tx, kind, name, year).Found?
    ensures var cs := SearchByName(db, kind, name, year).items;
      var r := ByName(db, tx, kind, name, year).rec;
      || (exists k :: FirstWhere(cs, DirectTest(tx, kind, name, year), k) && r == cs[k])
      || (&& (forall k :: 0 <= k < |cs| ==> !DirectTest(tx, kind, name, year)(cs[k]))
          && r.mediaType == Typed(if kind == Movie then Movie else Tv)
          && exists k :: FirstWhere(Window(kind, year, cs), ConfirmTest(db, tx, kind, name), k)
               && k < ExpandLimit && Found(r) == DetailOf(db, kind)(Window(kind, year, cs)[k]))
  {
    var cs := SearchByName(db, kind, name, year).items;
    match Find(cs, DirectTest(tx, kind, name, year))
    case Some(k) =>
    case None =>
      var w := Window(kind, year, cs);
      var k :| FirstWhere(w, ConfirmTest(db, tx, kind, name), k)
        && Found(ByName(db, tx, kind, name, year).rec) == DetailOf(db, kind)(w[k]);
      ConfirmedDetail(db, tx, kind, name, w[k]);
  }

  /** The season picker's direct test: the name matches and the first air date is in the requested year. */
  function SeasonDirectTest(tx: TextOps, name: string, year: int): Record -> bool
  {
    (c: Record) => TitleHit(tx, Tv, name, c) && YearMatches(c.firstAirDate, year)
  }

  /** A season entry that confirms the requested year and season; season 0 never confirms (it is falsy). */
  predicate SeasonAgrees(s: Season, year: int, season: int)
  {
    && Present(s.airDate)
    && s.seasonNumber.Some? && s.seasonNumber.value != 0
    && Prefix4(s.airDate.value) == IntText(year)
    && s.seasonNumber.value == season
  }

  /** The season loop of `__season_match`. */
  function AnySeasonAgrees(ss: seq<Season>, year: int, season: int): (r: bool)
    ensures r <==> exists i :: 0 <= i < |ss| && SeasonAgrees(ss[i], year, season)
  {
    if ss == [] then false
    else if SeasonAgrees(ss[0], year, season) then true
    else
      assert forall i :: 1 <= i < |ss| ==> ss[i] == ss[1..][i - 1];
      AnySeasonAgrees(ss[1..], year, season)
  }

  /** `__season_match`: a truthy record with a season that aired in `year` under the number `season`. */
  function SeasonMatch(info: Outcome, year: int, season: int): (r: bool)
    ensures r <==> info.Found? && exists i :: 0 <= i < |info.rec.seasons| && SeasonAgrees(info.rec.seasons[i], year, season)
  {
    info.Found? && AnySeasonAgrees(TvSeasons(info), year, season)
  }

  /** Season 0 (a special) never confirms a match, whatever the record says. */
  lemma SeasonZeroNeverMatches(info: Outcome, year: int)
    ensures !SeasonMatch(info, year, 0)
  {
  }

  /** The season picker's expansion test: alternate names match and one of the detail's seasons confirms. */
  function SeasonConfirmTest(db: Tmdb, tx: TextOps, name: string, year: int, season: int): Record -> bool
  {
    (c: Record) => Confirmed(db, tx, Tv, name, c) && SeasonMatch(AllNames(db, Tv, c.id).0, year, season)
  }

  /** How many search results the season and multi pickers expand (`[:5]`). */
  const SliceLimit: nat := 5

  /**
   * `__search_tv_by_season`: a TV search by name alone; the first result whose
   * name matches and whose first air date is in `year`; failing that, the
   * detail of the first of the first five results whose alternate names match
   * and one of whose seasons aired in `year` under number `season`.
   */
  function BySeason(db: Tmdb, tx: TextOps, name: string, year: int, season: int): (r: Outcome)
    ensures r.Null? <==> db.searchTv(name, None).Raised?
    ensures db.searchTv(name, None) == Results([]) ==> r == NotFound
    ensures db.searchTv(name, None).Results? ==>
      var cs := db.searchTv(name, None).items;
      forall k :: FirstWhere(cs, SeasonDirectTest(tx, name, year), k) ==> r == Found(cs[k])
    ensures db.searchTv(name, None).Results? ==>
      var cs := db.searchTv(name, None).items;
      (forall k :: 0 <= k < |cs| ==> !SeasonDirectTest(tx, name, year)(cs[k])) ==>
        r == FirstMap(Take(cs, SliceLimit), SeasonConfirmTest(db, tx, name, year, season), DetailOf(db, Tv)).GetOr(NotFound)
  {
    match db.searchTv(name, None)
    case Raised => Null
    case Results(cs) =>
      if |cs| == 0 then NotFound
      else
        match Find(cs, SeasonDirectTest(tx, name, year))
        case Some(k) =>
          FirstWhereUnique(cs, SeasonDirectTest(tx, name, year), k);
          Found(cs[k])
        case None =>
          SeasonConfirmedFound(db, tx, name, year, season, Take(cs, SliceLimit));
          FirstMap(Take(cs, SliceLimit), SeasonConfirmTest(db, tx, name, year, season), DetailOf(db, Tv)).GetOr(NotFound)
  }

  /** The result the season expansion pass settles on has a detail record. */
  lemma SeasonConfirmedFound(db: Tmdb, tx: TextOps, name: string, year: int, season: int, ws: seq<Record>)
    ensures var o := FirstMap(ws, SeasonConfirmTest(db, tx, name, year, season), DetailOf(db, Tv));
      o.Some? ==> o.value.Found?
  {
    var o := FirstMap(ws, SeasonConfirmTest(db, tx, name, year, season), DetailOf(db, Tv));
    if o.Some? {
      var k :| FirstWhere(ws, SeasonConfirmTest(db, tx, name, year, season), k) && o.value == DetailOf(db, Tv)(ws[k]);
      assert SeasonMatch(DetailOf(db, Tv)(ws[k]), year, season);
    }
  }

  /**
   * A season-picker hit found by expansion is a TV detail record that really
   * has a season aired in the requested year under the requested number.
   */
  lemma BySeasonExpansionHasSeason(db: Tmdb, tx: TextOps, name: string, year: int, season: int)
    requires db.searchTv(name, None).Results?
    requires forall k :: 0 <= k < |db.searchTv(name, None).items| ==>
      !SeasonDirectTest(tx, name, year)(db.searchTv(name, None).items[k])
    requires BySeason(db, tx, name, year, season).Found?
    ensures SeasonMatch(BySeason(db, tx, name, year, season), year, season)
    ensures season != 0
  {
    var cs := db.searchTv(name, None).items;
    var w := Take(cs, SliceLimit);
    var k :| FirstWhere(w, SeasonConfirmTest(db, tx, name, year, season), k)
      && BySeason(db, tx, name, year, season) == DetailOf(db, Tv)(w[k]);
  }

  /**
   * Without a direct hit the season picker finds something exactly when one
   * of the first five results confirms, and then it is the detail record of
   * the first such result; otherwise the answer is `{}`.
   */
  lemma BySeasonFallback(db: Tmdb, tx: TextOps, name: string, year: int, season: int)
    requires db.searchTv(name, None).Results?
    requires forall k :: 0 <= k < |db.searchTv(name, None).items| ==>
      !SeasonDirectTest(tx, name, year)(db.searchTv(name, None).items[k])
    ensures var cs := db.searchTv(name, None).items;
      var test := SeasonConfirmTest(db, tx, name, year, season);
      var r := BySeason(db, tx, name, year, season);
      && (r.Found? <==> exists k :: 0 <= k < |cs| && k < SliceLimit && test(cs[k]))
      && (!r.Found? ==> r == NotFound)
      && (r.Found? ==> exists k :: FirstWhere(cs, test, k) && k < SliceLimit && r == DetailOf(db, Tv)(cs[k]))
  {
    var cs := db.searchTv(name, None).items;
    var test := SeasonConfirmTest(db, tx, name, year, season);
    FirstMapTake(cs, SliceLimit, test, DetailOf(db, Tv));
    assert BySeason(db, tx, name, year, season) == FirstMap(Take(cs, SliceLimit), test, DetailOf(db, Tv)).GetOr(NotFound);
  }

  /** The multi picker's direct test: only "movie" and "tv" items, each on its own title fields. */
  function MultiDirectTest(tx: TextOps, name: string): Record -> bool
  {
    (c: Record) =>
      || (c.mediaType == Raw("movie") && TitleHit(tx, Movie, name, c))
      || (c.mediaType == Raw("tv") && TitleHit(tx, Tv, name, c))
  }

  /** The media type a multi-search item is expanded as. */
  function MultiKind(c: Record): MediaType
  {
    if c.mediaType == Raw("movie") then Movie else Tv
  }

  /** The multi picker's expansion test: a "movie" or "tv" item confirmed by its alternate names. */
  function MultiConfirmTest(db: Tmdb, tx: TextOps, name: string): Record -> bool
  {
    (c: Record) => (c.mediaType == Raw("movie") || c.mediaType == Raw("tv")) && Confirmed(db, tx, MultiKind(c), name, c)
  }

  /** The final tag: MOVIE only when the stored `media_type` is the raw string "movie", TV otherwise. */
  function TagMulti(r: Record): (t: Record)
    ensures t == r.(mediaType := t.mediaType)
    ensures t.mediaType == Typed(Movie) <==> r.mediaType == Raw("movie")
    ensures t.mediaType == Typed(Movie) || t.mediaType == Typed(Tv)
  {
    r.(mediaType := if r.mediaType == Raw("movie") then Typed(Movie) else Typed(Tv))
  }

  /** The detail an expanded multi-search item is fetched as. */
  function MultiDetail(db: Tmdb): Record -> Outcome
  {
    (c: Record) => DetailOf(db, MultiKind(c))(c)
  }

  /** The final tagging of `__search_multi_tmdb`, applied to whatever the passes found. */
  function TagMultiOutcome(o: Outcome): (r: Outcome)
    ensures r.Null? <==> o.Null?
    ensures r.NotFound? <==> o.NotFound?
    ensures r.Found? ==> r.rec == TagMulti(o.rec)
  {
    if o.Found? then Found(TagMulti(o.rec)) else o
  }

  /**
   * `__search_multi_tmdb`: both passes overwrite the result without breaking,
   * so the LAST direct match wins; failing any, the detail of the LAST
   * confirmed item of the first five; the winner is then tagged by its stored
   * `media_type`.
   */
  function Multi(db: Tmdb, tx: TextOps, name: string): (r: Outcome)
    ensures r.Null? <==> db.searchMulti(name).Raised?
    ensures db.searchMulti(name) == Results([]) ==> r == NotFound
    ensures db.searchMulti(name).Results? ==>
      var cs := db.searchMulti(name).items;
      forall k :: LastWhere(cs, MultiDirectTest(tx, name), k) ==> r == Found(TagMulti(cs[k]))
    ensures db.searchMulti(name).Results? ==>
      var cs := db.searchMulti(name).items;
      (forall k :: 0 <= k < |cs| ==> !MultiDirectTest(tx, name)(cs[k])) ==>
        r == TagMultiOutcome(LastMap(Take(cs, SliceLimit), MultiConfirmTest(db, tx, name), MultiDetail(db)).GetOr(NotFound))
  {
    match db.searchMulti(name)
    case Raised => Null
    case Results(cs) =>
      if |cs| == 0 then NotFound
      else
        match FindLast(cs, MultiDirectTest(tx, name))
        case Some(k) =>
          LastWhereUnique(cs, MultiDirectTest(tx, name), k);
          Found(TagMulti(cs[k]))
        case None =>
          MultiConfirmedFound(db, tx, name, Take(cs, SliceLimit));
          TagMultiOutcome(LastMap(Take(cs, SliceLimit), MultiConfirmTest(db, tx, name), MultiDetail(db)).GetOr(NotFound))
  }

  /** The item the multi expansion pass settles on has a detail record. */
  lemma MultiConfirmedFound(db: Tmdb, tx: TextOps, name: string, ws: seq<Record>)
    ensures var o := LastMap(ws, MultiConfirmTest(db, tx, name), MultiDetail(db));
      o.Some? ==> o.value.Found?
  {
    var o := LastMap(ws, MultiConfirmTest(db, tx, name), MultiDetail(db));
    if o.Some? {
      var k :| LastWhere(ws, MultiConfirmTest(db, tx, name), k) && o.value == MultiDetail(db)(ws[k]);
      ConfirmedDetail(db, tx, MultiKind(ws[k]), name, ws[k]);
    }
  }

  /** Whatever the multi picker finds is tagged MOVIE or TV. */
  lemma MultiTagged(db: Tmdb, tx: TextOps, name: string)
    requires Multi(db, tx, name).Found?
    ensures Multi(db, tx, name).rec.mediaType in {Typed(Movie), Typed(Tv)}
  {
  }

  /**
   * Without a direct match the multi picker finds something exactly when one
   * of the first five items is a "movie" or "tv" item confirmed by its
   * alternate names; and a movie found this way is tagged TV, because its
   * record comes from the detail lookup, whose `media_type` is the enum value
   * rather than the raw string "movie" that the final tag tests for.
   */
  lemma MultiExpansionIsTaggedTv(db: Tmdb, tx: TextOps, name: string)
    requires db.searchMulti(name).Results?
    requires forall k :: 0 <= k < |db.searchMulti(name).items| ==>
      !MultiDirectTest(tx, name)(db.searchMulti(name).items[k])
    ensures var cs := db.searchMulti(name).items;
      Multi(db, tx, name).Found? <==> exists k :: 0 <= k < |cs| && k < SliceLimit && MultiConfirmTest(db, tx, name)(cs[k])
    ensures Multi(db, tx, name).Found? ==> Multi(db, tx, name).rec.mediaType == Typed(Tv)
  {
    var cs := db.searchMulti(name).items;
    var ws := Take(cs, SliceLimit);
    var test := MultiConfirmTest(db, tx, name);
    var o := LastMap(ws, test, MultiDetail(db));
    assert Multi(db, tx, name) == TagMultiOutcome(o.GetOr(NotFound));
    if o.Some? {
      var k :| LastWhere(ws, test, k) && o.value == MultiDetail(db)(ws[k]);
      ConfirmedDetail(db, tx, MultiKind(ws[k]), name, ws[k]);
      assert ws[k] == cs[k];
    } else {
      forall k | 0 <= k < |cs| && k < SliceLimit ensures !test(cs[k]) {
        assert ws[k] == cs[k];
      }
    }
  }

  /** Sets `media_type` on a found record and passes other outcomes through. */
  function Tag(o: Outcome, t: MediaType): (r: Outcome)
    ensures r.Null? <==> o.Null?
    ensures r.NotFound? <==> o.NotFound?
    ensures r.Found? ==> r.rec == o.rec.(mediaType := Typed(t))
  {
    if o.Found? then Found(o.rec.(mediaType := Typed(t))) else o
  }

  /** The years the movie branch tries: the year, then year+1, then year-1; or no year at all. */
  function YearRange(y: Option<int>): (ys: seq<Option<int>>)
    ensures |ys| >= 1
  {
    if y.Some? then [y, Some(y.value + 1), Some(y.value - 1)] else [None]
  }

  /** The movie loop of `__search_tmdb`: the first attempt that finds, tagged MOVIE; else the last attempt's outcome. */
  function MovieOverYears(ys: seq<Option<int>>, attempt: Option<int> -> Outcome): (r: Outcome)
    requires |ys| >= 1
    ensures r.Found? <==> exists i :: 0 <= i < |ys| && attempt(ys[i]).Found?
    ensures r.Found? ==> r.rec.mediaType == Typed(Movie)
    ensures !r.Found? ==> r == attempt(ys[|ys| - 1])
    ensures forall i :: FirstWhere(ys, (y: Option<int>) => attempt(y).Found?, i) ==> r == Tag(attempt(ys[i]), Movie)
  {
    var a := attempt(ys[0]);
    if a.Found? then Tag(a, Movie)
    else if |ys| == 1 then a
    else
      assert forall i :: 1 <= i < |ys| ==> ys[i] == ys[1..][i - 1];
      MovieOverYears(ys[1..], attempt)
  }

  /** One movie attempt of the dispatcher. */
  function MovieAttempt(db: Tmdb, tx: TextOps, name: string): Option<int> -> Outcome
  {
    (y: Option<int>) => ByName(db, tx, Movie, name, y)
  }

  /**
   * `__search_tmdb`: for movies the year loop; otherwise the season picker when
   * both a media year and a non-zero season are given, then the TV by-name
   * picker with the first-air year if that did not find, the result tagged TV.
   */
  function SearchTmdb(db: Tmdb, tx: TextOps, name: string, searchType: MediaType,
                      firstYear: Option<int>, mediaYear: Option<int>, season: Option<int>): (r: Outcome)
    ensures name == "" ==> r.Null?
    ensures r.Found? ==> r.rec.mediaType == Typed(if searchType == Movie then Movie else Tv)
  {
    if name == "" then Null
    else if searchType == Movie then MovieOverYears(YearRange(firstYear), MovieAttempt(db, tx, name))
    else
      var s := if mediaYear.Some? && season.Some? && season.value != 0
        then BySeason(db, tx, name, mediaYear.value, season.value) else NotFound;
      var t := if s.Found? then s else ByName(db, tx, Tv, name, firstYear);
      Tag(t, Tv)
  }

  /**
   * With a year, movies are searched for that year, then the next, then the
   * previous, stopping at the first hit; when none hits, the previous-year
   * attempt's outcome (possibly `Null`) is the result.
   */
  lemma MovieYearOrder(db: Tmdb, tx: TextOps, name: string, y: int)
    requires name != ""
    ensures var a := ByName(db, tx, Movie, name, Some(y));
      var b := ByName(db, tx, Movie, name, Some(y + 1));
      var c := ByName(db, tx, Movie, name, Some(y - 1));
      SearchTmdb(db, tx, name, Movie, Some(y), None, None)
        == if a.Found? then Tag(a, Movie) else if b.Found? then Tag(b, Movie) else Tag(c, Movie)
  {
    var ys := YearRange(Some(y));
    var att := MovieAttempt(db, tx, name);
    assert ys[0] == Some(y) && ys[1] == Some(y + 1) && ys[2] == Some(y - 1);
    var p := (yy: Option<int>) => att(yy).Found?;
    if att(ys[0]).Found? {
      assert FirstWhere(ys, p, 0);
    } else if att(ys[1]).Found? {
      assert FirstWhere(ys, p, 1);
    } else if att(ys[2]).Found? {
      assert FirstWhere(ys, p, 2);
    }
  }

  /**
   * The TV branch consults the season picker only with a media year and a
   * non-zero season; otherwise, or when it does not find, the by-name picker
   * decides, so a raised season search falls through as well.
   */
  lemma TvDispatch(db: Tmdb, tx: TextOps, name: string, firstYear: Option<int>, mediaYear: Option<int>, season: Option<int>)
    requires name != ""
    ensures var r := SearchTmdb(db, tx, name, Tv, firstYear, mediaYear, season);
      var bySeason := mediaYear.Some? && season.Some? && season.value != 0;
      && (bySeason && BySeason(db, tx, name, mediaYear.value, season.value).Found? ==>
            r == Tag(BySeason(db, tx, name, mediaYear.value, season.value), Tv))
      && (!bySeason || !BySeason(db, tx, name, mediaYear.value, season.value).Found? ==>
            r == Tag(ByName(db, tx, Tv, name, firstYear), Tv))
  {
  }

  /** `"2022-12-07"` matches the year 2022 and no other. */
  lemma YearPrefixExample(y: int)
    ensures YearMatches(Some("2022-12-07"), y) <==> y == 2022
  {
    assert Prefix4("2022-12-07") == "2022";
    assert NatText(2) == "2";
    assert NatText(20) == "20";
    assert NatText(202) == "202";
    assert IntText(2022) == "2022";
    IntTextInjective(y, 2022);
  }
}
