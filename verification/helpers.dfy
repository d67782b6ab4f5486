/**
 * The small static helpers of the media module: a TV record's season list,
 * the episode count of one season, the detail-page URL of an id, and the
 * episode intersection used when merging two views of the same show.
 */
module Helpers {
  import opened Wrappers
  import opened Seqs
  import opened Text
  import opened Records

  /** `get_tmdb_tv_seasons`: the `seasons` list of a truthy record, else the empty list. */
  function TvSeasons(info: Outcome): (r: seq<Season>)
    ensures !info.Found? ==> r == []
    ensures info.Found? ==> r == info.rec.seasons
  {
    match info
    case Found(rec) => rec.seasons
    case _ => []
  }

  /** `ss[k]` is the first season numbered `season`. */
  predicate FirstNumbered(ss: seq<Season>, season: int, k: int)
  {
    && 0 <= k < |ss|
    && ss[k].seasonNumber == Some(season)
    && forall j :: 0 <= j < k ==> ss[j].seasonNumber != Some(season)
  }

  /** The episode count of the first season numbered `season`, or 0 when there is none. */
  function EpisodesOfFirst(ss: seq<Season>, season: int): (r: int)
    ensures forall k :: FirstNumbered(ss, season, k) ==> r == ss[k].episodeCount
    ensures (forall k :: 0 <= k < |ss| ==> ss[k].seasonNumber != Some(season)) ==> r == 0
  {
    if ss == [] then 0
    else if ss[0].seasonNumber == Some(season) then ss[0].episodeCount
    else
      assert forall k :: 1 <= k < |ss| ==> ss[k] == ss[1..][k - 1];
      EpisodesOfFirst(ss[1..], season)
  }

  /** `get_tmdb_season_episodes_num`: 0 for a falsy record, otherwise the first matching season's count. */
  function SeasonEpisodesNum(info: Outcome, season: int): (r: int)
    ensures !info.Found? ==> r == 0
    ensures info.Found? ==> forall k :: FirstNumbered(info.rec.seasons, season, k) ==> r == info.rec.seasons[k].episodeCount
    ensures info.Found? && (forall k :: 0 <= k < |info.rec.seasons| ==> info.rec.seasons[k].seasonNumber != Some(season))
      ==> r == 0
  {
    match info
    case Found(rec) => if rec.seasons == [] then 0 else EpisodesOfFirst(rec.seasons, season)
    case _ => 0
  }

  /** An id as the caller passes it: a TMDB number, or a text such as a Douban `DB:` reference. */
  datatype TmdbRef = NumRef(n: int) | TextRef(s: string)

  /** Python's `str(tmdbid)`. */
  function RefText(ref: TmdbRef): string
  {
    match ref
    case NumRef(n) => IntText(n)
    case TextRef(s) => s
  }

  /** Python truthiness of the id. */
  predicate RefTruthy(ref: TmdbRef)
  {
    match ref
    case NumRef(n) => n != 0
    case TextRef(s) => s != ""
  }

  const DoubanPrefix: string := "https://movie.douban.com/subject/"
  const TmdbMoviePrefix: string := "https://www.themoviedb.org/movie/"
  const TmdbTvPrefix: string := "https://www.themoviedb.org/tv/"

  /**
   * `get_detail_url`: empty for a falsy id; a Douban page for a `DB:` id (every
   * `DB:` removed); otherwise the TMDB movie page for MediaType.MOVIE and the
   * TV page for anything else.
   */
  function DetailUrl(mtype: MediaTag, ref: TmdbRef): (url: string)
    ensures url == "" <==> !RefTruthy(ref)
    ensures RefTruthy(ref) && "DB:" <= RefText(ref) ==> DoubanPrefix <= url
    ensures RefTruthy(ref) && !("DB:" <= RefText(ref)) ==>
      && |RefText(ref)| <= |url|
      && url[..|url| - |RefText(ref)|] == (if mtype == Typed(Movie) then TmdbMoviePrefix else TmdbTvPrefix)
      && url[|url| - |RefText(ref)|..] == RefText(ref)
  {
    if !RefTruthy(ref) then ""
    else
      var text := RefText(ref);
      if "DB:" <= text then DoubanPrefix + RemoveAll(text, "DB:")
      else if mtype == Typed(Movie) then TmdbMoviePrefix + text
      else TmdbTvPrefix + text
  }

  /** A numeric id never reads as a Douban reference. */
  lemma NumericIdIsNotDouban(n: int)
    ensures !("DB:" <= RefText(NumRef(n)))
  {
    var t := IntText(n);
    if n >= 0 {
      assert '0' <= t[0] <= '9';
    } else {
      assert t[0] == '-';
    }
  }

  /** A Douban id's URL is the Douban subject prefix followed by the id with its `DB:` marker removed. */
  lemma DoubanUrl(mtype: MediaTag, s: string)
    requires !Contains(s, "DB:")
    ensures DetailUrl(mtype, TextRef("DB:" + s)) == DoubanPrefix + s
  {
    assert "DB:" <= "DB:" + s;
    RemoveAllLeading("DB:", s);
  }

  /** For a fixed media type, distinct non-zero numeric ids have distinct detail URLs. */
  lemma DetailUrlInjective(mtype: MediaTag, a: int, b: int)
    requires a != 0 && b != 0
    requires DetailUrl(mtype, NumRef(a)) == DetailUrl(mtype, NumRef(b))
    ensures a == b
  {
    NumericIdIsNotDouban(a);
    NumericIdIsNotDouban(b);
    var p := if mtype == Typed(Movie) then TmdbMoviePrefix else TmdbTvPrefix;
    var ua := DetailUrl(mtype, NumRef(a));
    assert ua == p + IntText(a);
    assert ua == p + IntText(b);
    assert IntText(a) == ua[|p|..] == IntText(b);
    IntTextInjective(a, b);
  }

  /** One season entry of an episode listing; the list of episodes is read as a set. */
  datatype SeasonEpisodes = SeasonEpisodes(season: Option<int>, episodes: set<int>)

  /** The first source entry for the same season, and what merging with it does to one target entry. */
  function MergeSeason(t: SeasonEpisodes, source: seq<SeasonEpisodes>): (r: SeasonEpisodes)
    ensures r.season == t.season
    ensures var k := Find(source, (s: SeasonEpisodes) => s.season == t.season);
      if k.None? || source[k.value].episodes == {} then r == t
      else if t.episodes == {} then r.episodes == source[k.value].episodes
      else r.episodes == t.episodes * source[k.value].episodes
  {
    match Find(source, (s: SeasonEpisodes) => s.season == t.season)
    case None => t
    case Some(k) =>
      if source[k].episodes == {} then t
      else if t.episodes == {} then t.(episodes := source[k].episodes)
      else t.(episodes := t.episodes * source[k].episodes)
  }

  /** Merging again with the same source changes nothing, unless the first merge emptied a non-empty season. */
  lemma MergeSeasonTwice(t: SeasonEpisodes, source: seq<SeasonEpisodes>)
    requires t.episodes == {} || MergeSeason(t, source).episodes != {}
    ensures MergeSeason(MergeSeason(t, source), source) == MergeSeason(t, source)
  {
  }

  /**
   * A season whose episodes share nothing with the source's is emptied by
   * the first merge and then refilled with the source's episodes by a
   * second: an empty episode list reads as "unknown", not "none".
   */
  lemma MergeSeasonRefills(t: SeasonEpisodes, s: SeasonEpisodes)
    requires s.season == t.season && t.episodes != {} && s.episodes != {} && t.episodes * s.episodes == {}
    ensures MergeSeason(t, [s]).episodes == {}
    ensures MergeSeason(MergeSeason(t, [s]), [s]).episodes == s.episodes
  {
    assert FirstWhere([s], (x: SeasonEpisodes) => x.season == t.season, 0);
  }

  /**
   * `get_intersection_episodes`: narrows the target's episode sets for `title`
   * to those the source also lists; a target without the title copies the
   * source's list; nothing else in the target changes.
   */
  function IntersectEpisodes(target: map<string, seq<SeasonEpisodes>>, source: map<string, seq<SeasonEpisodes>>,
                             title: string): (r: map<string, seq<SeasonEpisodes>>)
    ensures forall k :: k != title ==> (k in r <==> k in target)
    ensures forall k :: k != title && k in target ==> r[k] == target[k]
    ensures (|source| == 0 || title == "" || title !in source || source[title] == []) ==> r == target
    ensures title in source && source[title] != [] && title != "" && (title !in target || target[title] == [])
      ==> title in r && r[title] == source[title]
    ensures title in target && target[title] != [] ==> title in r && |r[title]| == |target[title]|
    ensures title in target && title in r && |r[title]| == |target[title]| ==> forall i :: 0 <= i < |r[title]| ==>
      && r[title][i].season == target[title][i].season
      && (target[title][i].episodes != {} ==> r[title][i].episodes <= target[title][i].episodes)
    ensures title != "" && title in source && source[title] != [] && title in target && target[title] != [] ==>
      title in r && |r[title]| == |target[title]| &&
      forall i :: 0 <= i < |target[title]| ==> r[title][i] == MergeSeason(target[title][i], source[title])
  {
    if |source| == 0 || title == "" then target
    else if title !in source || source[title] == [] then target
    else if title !in target || target[title] == [] then target[title := source[title]]
    else
      var ts := target[title];
      target[title := seq(|ts|, i requires 0 <= i < |ts| => MergeSeason(ts[i], source[title]))]
  }
}
