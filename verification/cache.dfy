/**
 * The resolution cache: `__make_cache_key`, `__insert_media_cache` and the
 * read side of `get_media_info`. The persistent store is a map from key to
 * entry; a confirmed miss is stored as the negative entry `{'id': 0}`.
 */
module Cache {
  import opened Wrappers
  import opened Seqs
  import opened Text
  import opened Records

  /** `MediaType.value`, the label that opens a cache key. */
  function TypeLabel(t: MediaType): (s: string)
    ensures |s| >= 1 && ']' !in s
  {
    match t
    case Movie => "电影"
    case Tv => "电视剧"
    case Anime => "动漫"
    case Unknown => "未知"
  }

  /** Different media types have different labels. */
  lemma TypeLabelInjective(a: MediaType, b: MediaType)
    requires TypeLabel(a) == TypeLabel(b)
    ensures a == b
  {
  }

  /** `f"[{type.value}]{name}-{year}-{begin_season}"`, where a missing year or season renders as `None`. */
  function MakeCacheKey(t: MediaType, name: string, year: Option<int>, season: Option<int>): (r: string)
    ensures "[" + TypeLabel(t) + "]" + name <= r
    ensures |r| >= |name| + |TypeLabel(t)| + 6
  {
    "[" + TypeLabel(t) + "]" + KeyTail(name, year, season)
  }

  /** The part of a key after the type label. */
  function KeyTail(name: string, year: Option<int>, season: Option<int>): string
  {
    name + "-" + OptIntText(year) + "-" + OptIntText(season)
  }

  lemma KeyAfterBracket(t: MediaType, name: string, year: Option<int>, season: Option<int>)
    ensures MakeCacheKey(t, name, year, season)[1..] == TypeLabel(t) + [']'] + KeyTail(name, year, season)
  {
  }

  lemma TailAfterName(name: string, year: Option<int>, season: Option<int>)
    ensures KeyTail(name, year, season)[|name| + 1..] == OptIntText(year) + ['-'] + OptIntText(season)
  {
  }

  /** A separator that the part before it lacks marks where that part ends. */
  lemma SplitAtSeparator(a1: string, b1: string, a2: string, b2: string, c: char)
    requires c !in a1 && c !in a2
    requires a1 + [c] + b1 == a2 + [c] + b2
    ensures a1 == a2 && b1 == b2
  {
    var x := a1 + [c] + b1;
    assert x[|a1|] == c && forall j :: 0 <= j < |a1| ==> x[j] == a1[j];
    assert x[|a2|] == c && forall j :: 0 <= j < |a2| ==> x[j] == a2[j];
    assert FirstIndex(x, c) == |a1|;
    assert FirstIndex(x, c) == |a2|;
    assert a1 == x[..|a1|] && a2 == x[..|a2|];
    assert b1 == x[|a1| + 1..] && b2 == x[|a2| + 1..];
  }

  /**
   * For one name and years that are missing or non-negative, the key
   * determines the media type, the year and the season: two requests that
   * differ in any of them never share a cache entry.
   */
  lemma CacheKeyInjective(t1: MediaType, t2: MediaType, name: string,
                          y1: Option<int>, y2: Option<int>, s1: Option<int>, s2: Option<int>)
    requires y1.Some? ==> y1.value >= 0
    requires y2.Some? ==> y2.value >= 0
    requires MakeCacheKey(t1, name, y1, s1) == MakeCacheKey(t2, name, y2, s2)
    ensures t1 == t2 && y1 == y2 && s1 == s2
  {
    var r1 := KeyTail(name, y1, s1);
    var r2 := KeyTail(name, y2, s2);
    KeyAfterBracket(t1, name, y1, s1);
    KeyAfterBracket(t2, name, y2, s2);
    SplitAtSeparator(TypeLabel(t1), r1, TypeLabel(t2), r2, ']');
    TypeLabelInjective(t1, t2);
    TailAfterName(name, y1, s1);
    TailAfterName(name, y2, s2);
    OptIntTextNoDash(y1);
    OptIntTextNoDash(y2);
    SplitAtSeparator(OptIntText(y1), OptIntText(s1), OptIntText(y2), OptIntText(s2), '-');
    OptIntTextInjective(y1, y2);
    OptIntTextInjective(s1, s2);
  }

  /** A stored entry: the id, type, 4-character year, title and image paths of a hit, or `{'id': 0}`. */
  datatype CacheEntry = CacheEntry(id: int, mtype: MediaTag, year: Option<string>, title: Option<string>,
                                   posterPath: Option<string>, backdropPath: Option<string>)

  /** `{'id': 0}`: a confirmed miss. */
  const Negative := CacheEntry(0, Untagged, None, None, None, None)

  /** The kind whose title and date fields an entry reads: movie only for a record tagged MOVIE. */
  function EntryKind(r: Record): MediaType
  {
    if r.mediaType == Typed(Movie) then Movie else Tv
  }

  /** The entry `__insert_media_cache` stores for a result that is not `None`. */
  function EntryFor(info: Outcome): (e: CacheEntry)
    requires !info.Null?
    ensures info.NotFound? ==> e == Negative
    ensures info.Found? ==>
      var r := info.rec;
      var date := DateOf(EntryKind(r), r);
      && e.id == r.id && e.mtype == r.mediaType
      && e.title == TitleOf(EntryKind(r), r)
      && e.posterPath == r.posterPath && e.backdropPath == r.backdropPath
      && (Present(e.year) <==> Present(date))
      && (Present(date) ==> e.year.value <= date.value && |e.year.value| == if |date.value| < 4 then |date.value| else 4)
      && (!Present(date) ==> e.year == date)
  {
    match info
    case NotFound => Negative
    case Found(r) =>
      var kind := EntryKind(r);
      var date := DateOf(kind, r);
      CacheEntry(r.id, r.mediaType, if Present(date) then Some(Prefix4(date.value)) else date,
                 TitleOf(kind, r), r.posterPath, r.backdropPath)
  }

  /** The stored year of a record that matched a requested year is that year's text. */
  lemma EntryYearIsMatchedYear(info: Outcome, y: int)
    requires info.Found? && Present(DateOf(EntryKind(info.rec), info.rec))
    requires Prefix4(DateOf(EntryKind(info.rec), info.rec).value) == IntText(y)
    ensures EntryFor(info).year == Some(IntText(y))
  {
  }

  /** `__insert_media_cache`: the entry for the result is stored under the key, replacing any earlier one. */
  function Insert(cache: map<string, CacheEntry>, key: string, info: Outcome): (c: map<string, CacheEntry>)
    requires !info.Null?
    ensures key in c && c[key] == EntryFor(info)
    ensures forall k :: k != key ==> (k in c <==> k in cache) && (k in cache ==> c[k] == cache[k])
  {
    cache[key := EntryFor(info)]
  }

  /** The read side of the cache: an entry with a non-zero id is re-fetched by id and type; otherwise `None`. */
  function ReadEntry(db: Tmdb, e: CacheEntry): (r: Outcome)
    ensures e.id == 0 ==> r.Null?
    ensures e.id != 0 ==> r == GetTmdbInfo(db, e.mtype, e.id)
  {
    if e.id != 0 then GetTmdbInfo(db, e.mtype, e.id) else Null
  }

  /**
   * Reading back what was written: a confirmed miss reads as `None` without
   * any lookup, and a hit with a non-zero id becomes a direct detail lookup
   * of that id as the type it was tagged with.
   */
  lemma WriteThenRead(db: Tmdb, cache: map<string, CacheEntry>, key: string, info: Outcome)
    requires !info.Null?
    ensures var e := Insert(cache, key, info)[key];
      && (info.NotFound? ==> ReadEntry(db, e).Null?)
      && (info.Found? && info.rec.id != 0 ==> ReadEntry(db, e) == GetTmdbInfo(db, info.rec.mediaType, info.rec.id))
  {
  }

  /** A hit tagged by the detail lookup reads back with the same id and type, so re-reading it is stable. */
  lemma ReadBackIsStable(db: Tmdb, cache: map<string, CacheEntry>, key: string, info: Outcome)
    requires info.Found? && info.rec.id != 0
    requires info.rec.mediaType == Typed(Movie) || info.rec.mediaType == Typed(Tv)
    ensures var r := ReadEntry(db, Insert(cache, key, info)[key]);
      r.Found? ==> r.rec.mediaType == info.rec.mediaType
  {
  }
}
