/**
 * The link rule of `__search_tmdb_web`: the TMDB website's search page is
 * scraped for `a[data-id]` links, the `/tv...` and `/movie...` ones are kept
 * once each in page order, and only a page with exactly one such link
 * identifies a title.
 *
 * The HTTP request and the HTML parsing are not modelled: the page is given
 * as the list of scraped hrefs, or `None` when there is no usable page (no
 * response, a status other than 200, an empty body, a parse error).
 */
module Web {
  import opened Wrappers
  import opened Seqs
  import opened Text
  import opened Records

  /** A non-empty href that starts with `/tv` or `/movie`. */
  predicate IsMediaLink(l: string)
  {
    l != [] && ("/tv" <= l || "/movie" <= l)
  }

  /** The scraped hrefs that name a title, without repeats, in page order. */
  function KeepLinks(hrefs: seq<string>): (r: seq<string>)
    ensures Distinct(r)
    ensures forall l :: l in r <==> l in hrefs && IsMediaLink(l)
  {
    AddNew([], hrefs, IsMediaLink)
  }

  /** A link is looked up as TV when it starts with `/tv` and as a movie otherwise. */
  function LinkType(l: string): MediaTag
  {
    if "/tv" <= l then Typed(Tv) else Typed(Movie)
  }

  /**
   * `__search_tmdb_web`: an empty name yields `None`; a Chinese name `{}`.
   * With exactly one title link, the detail of the id after its last `/`
   * (converted by `linkId`), except that a TV request answered with a movie
   * yields `{}`. No usable page, no title link, or several yield `None`.
   */
  function WebSearch(db: Tmdb, tx: TextOps, name: string, mtype: MediaType,
                     page: Option<seq<string>>, linkId: string -> int): (r: Outcome)
    ensures name == "" ==> r.Null?
    ensures name != "" && tx.isChinese(name) ==> r.NotFound?
    ensures name != "" && !tx.isChinese(name) && (page.None? || |KeepLinks(page.value)| != 1) ==> r.Null?
    ensures r.Found? ==> mtype == Tv ==> r.rec.mediaType == Typed(Tv)
    ensures r.Found? ==>
      && page.Some? && |KeepLinks(page.value)| == 1
      && var l := KeepLinks(page.value)[0];
         r == GetTmdbInfo(db, LinkType(l), linkId(LastSegment(l)))
  {
    if name == "" then Null
    else if tx.isChinese(name) then NotFound
    else if page.None? then Null
    else
      var links := KeepLinks(page.value);
      if |links| == 1 then
        var info := GetTmdbInfo(db, LinkType(links[0]), linkId(LastSegment(links[0])));
        if info.Found? && mtype == Tv && info.rec.mediaType != Typed(Tv) then NotFound
        else info
      else Null
  }

  /**
   * A page with a single title link yields that title's detail outcome
   * (`None`, `{}` or the record), except that a movie link yields `{}` for a
   * TV request whose detail exists.
   */
  lemma WebSingleLink(db: Tmdb, tx: TextOps, name: string, mtype: MediaType,
                      hrefs: seq<string>, linkId: string -> int, l: string)
    requires name != "" && !tx.isChinese(name)
    requires l in hrefs && IsMediaLink(l)
    requires forall h :: h in hrefs && IsMediaLink(h) ==> h == l
    ensures var info := GetTmdbInfo(db, LinkType(l), linkId(LastSegment(l)));
      WebSearch(db, tx, name, mtype, Some(hrefs), linkId)
        == if info.Found? && mtype == Tv && !("/tv" <= l) then NotFound else info
  {
    var links := KeepLinks(hrefs);
    assert l in links;
    assert forall i :: 0 <= i < |links| ==> links[i] == l;
    DistinctSingleValue(links, l);
    assert links == [l];
  }

  /** Two different title links on the page leave the web fallback without an answer. */
  lemma WebAmbiguous(db: Tmdb, tx: TextOps, name: string, mtype: MediaType,
                     hrefs: seq<string>, linkId: string -> int, a: string, b: string)
    requires a in hrefs && IsMediaLink(a) && b in hrefs && IsMediaLink(b) && a != b
    ensures !WebSearch(db, tx, name, mtype, Some(hrefs), linkId).Found?
  {
    var links := KeepLinks(hrefs);
    TwoMembers(links, a, b);
  }
}
