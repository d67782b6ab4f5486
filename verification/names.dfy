/**
 * Name equality (`__compare_tmdb_names`) and alternate-name harvesting
 * (`__search_tmdb_allnames`).
 */
module Names {
  import opened Wrappers
  import opened Seqs
  import opened Text
  import opened Records

  /** The second argument of the comparison: absent, one string, or a list of strings. */
  datatype Candidates = NoName | Single(s: string) | Many(items: seq<string>)

  /** Python truthiness of the candidate argument. */
  predicate Truthy(c: Candidates)
  {
    match c
    case NoName => false
    case Single(s) => s != ""
    case Many(items) => items != []
  }

  /** A record field handed to the comparison as is. */
  function NamesOf(s: Option<string>): (c: Candidates)
    ensures Truthy(c) <==> Present(s)
  {
    match s
    case None => NoName
    case Some(v) => Single(v)
  }

  /** The candidate argument as a list: a single string becomes a one-element list. */
  function Listed(c: Candidates): seq<string>
  {
    match c
    case NoName => []
    case Single(s) => [s]
    case Many(items) => items
  }

  /** Canonical form of the file-side name: special characters handled, upper-cased. */
  function FileKey(tx: TextOps, f: string): string
  {
    tx.upper(tx.normalize(f))
  }

  /** Canonical form of a TMDB-side name: special characters handled, stripped, upper-cased. */
  function CandidateKey(tx: TextOps, c: string): string
  {
    tx.upper(tx.strip(tx.normalize(c)))
  }

  /** The file name and one TMDB name are equal after canonicalisation. */
  predicate SameName(tx: TextOps, f: string, c: string)
  {
    FileKey(tx, f) == CandidateKey(tx, c)
  }

  /** The scan over the candidates for one whose canonical form equals `key`. */
  function AnyEqual(tx: TextOps, key: string, cs: seq<string>): (r: bool)
    ensures r <==> exists i :: 0 <= i < |cs| && key == CandidateKey(tx, cs[i])
  {
    if cs == [] then false
    else if key == CandidateKey(tx, cs[0]) then true
    else
      var r := AnyEqual(tx, key, cs[1..]);
      assert forall i :: 1 <= i < |cs| ==> cs[i] == cs[1..][i - 1];
      r
  }

  /**
   * `__compare_tmdb_names`: false when either side is falsy; otherwise true
   * exactly when some candidate equals the file name after canonicalisation
   * (exact equality, no substring or fuzzy match).
   */
  function CompareNames(tx: TextOps, f: string, names: Candidates): (r: bool)
    ensures f == "" ==> !r
    ensures !Truthy(names) ==> !r
    ensures r <==> f != "" && Truthy(names) && exists c :: c in Listed(names) && SameName(tx, f, c)
  {
    if f == "" || !Truthy(names) then false
    else
      var cs := Listed(names);
      var r := AnyEqual(tx, FileKey(tx, f), cs);
      assert r ==> exists c :: c in cs && SameName(tx, f, c) by {
        if r {
          var i :| 0 <= i < |cs| && FileKey(tx, f) == CandidateKey(tx, cs[i]);
          assert cs[i] in cs && SameName(tx, f, cs[i]);
        }
      }
      assert (exists c :: c in cs && SameName(tx, f, c)) ==> r by {
        if exists c :: c in cs && SameName(tx, f, c) {
          var c :| c in cs && SameName(tx, f, c);
          var i :| 0 <= i < |cs| && cs[i] == c;
          assert FileKey(tx, f) == CandidateKey(tx, cs[i]);
        }
      }
      r
  }

  /** A non-empty single string compares exactly as the one-element list holding it. */
  lemma SingleIsOneElementList(tx: TextOps, f: string, s: string)
    requires s != ""
    ensures CompareNames(tx, f, Single(s)) == CompareNames(tx, f, Many([s]))
  {
  }

  /** A name equals itself whenever stripping leaves its normalized form unchanged. */
  lemma NameEqualsItself(tx: TextOps, n: string)
    requires n != ""
    requires tx.strip(tx.normalize(n)) == tx.normalize(n)
    ensures CompareNames(tx, n, Single(n))
    ensures CompareNames(tx, n, Many([n]))
  {
    assert n in Listed(Single(n)) && SameName(tx, n, n);
  }

  /** Python truthiness of each optional string, with a missing one read as "". */
  function Texts(xs: seq<Option<string>>): (r: seq<string>)
    ensures |r| == |xs|
    ensures forall i :: 0 <= i < |xs| ==> (r[i] != "" <==> Present(xs[i]))
    ensures forall i :: 0 <= i < |xs| ==> Present(xs[i]) ==> r[i] == xs[i].value
  {
    seq(|xs|, i requires 0 <= i < |xs| => xs[i].GetOr(""))
  }

  predicate NonEmpty(s: string)
  {
    s != ""
  }

  /** `x` is offered by some truthy entry of `xs`. */
  predicate Offered(xs: seq<Option<string>>, x: string)
  {
    exists i :: 0 <= i < |xs| && Present(xs[i]) && xs[i].value == x
  }

  /** The alternative titles read for a media type: `titles[].title` for movies, `results[].title` otherwise. */
  function AltSource(kind: MediaType, r: Record): seq<Option<string>>
  {
    if kind == Movie then r.movieAltTitles else r.tvAltTitles
  }

  /** The translated names read for a media type: `data.title` for movies, `data.name` otherwise. */
  function TransSource(kind: MediaType, r: Record): (xs: seq<Option<string>>)
    ensures |xs| == |r.translations|
  {
    seq(|r.translations|, i requires 0 <= i < |r.translations| =>
      if kind == Movie then r.translations[i].title else r.translations[i].name)
  }

  /** Every truthy name the source reads, in reading order: alternative titles, then translations. */
  function NameStream(kind: MediaType, r: Record): seq<string>
  {
    Texts(AltSource(kind, r)) + Texts(TransSource(kind, r))
  }

  /** The names harvested from a detail record: alternative titles first, then translations, de-duplicated. */
  function HarvestNames(kind: MediaType, r: Record): (names: seq<string>)
    ensures Distinct(names)
    ensures forall i :: 0 <= i < |names| ==> names[i] != ""
    ensures forall x :: x in names <==> Offered(AltSource(kind, r), x) || Offered(TransSource(kind, r), x)
    ensures AddNew([], Texts(AltSource(kind, r)), NonEmpty) <= names
  {
    OfferedIsTruthyText(AltSource(kind, r));
    OfferedIsTruthyText(TransSource(kind, r));
    AddNew(AddNew([], Texts(AltSource(kind, r)), NonEmpty), Texts(TransSource(kind, r)), NonEmpty)
  }

  /**
   * `__search_tmdb_allnames`: the detail record and its alternative and
   * translated names. A zero id yields `({}, [])`; a falsy detail yields it
   * with no names.
   */
  function AllNames(db: Tmdb, kind: MediaType, id: int): (res: (Outcome, seq<string>))
    ensures res.1 != [] ==> res.0.Found?
    ensures id == 0 ==> res == (NotFound, [])
    ensures id != 0 ==> res.0 == GetTmdbInfo(db, Typed(kind), id)
  {
    if id == 0 then (NotFound, [])
    else
      var info := GetTmdbInfo(db, Typed(kind), id);
      match info
      case Found(r) => (info, HarvestNames(kind, r))
      case _ => (info, [])
  }

  /**
   * What the harvest yields: the detail lookup's outcome, and names that are
   * distinct, non-empty, exactly the truthy alternative and translated names,
   * with the alternative titles first.
   */
  lemma AllNamesSpec(db: Tmdb, kind: MediaType, id: int)
    ensures var (info, names) := AllNames(db, kind, id);
      && (id == 0 ==> info == NotFound && names == [])
      && (id != 0 ==> info == GetTmdbInfo(db, Typed(kind), id))
      && (!info.Found? ==> names == [])
      && Distinct(names)
      && (forall i :: 0 <= i < |names| ==> names[i] != "")
      && (info.Found? ==> forall x ::
            x in names <==> Offered(AltSource(kind, info.rec), x) || Offered(TransSource(kind, info.rec), x))
      && (info.Found? ==> AddNew([], Texts(AltSource(kind, info.rec)), NonEmpty) <= names)
  {
    var (info, names) := AllNames(db, kind, id);
    if info.Found? && id != 0 {
      var r := info.rec;
      OfferedIsTruthyText(AltSource(kind, r));
      OfferedIsTruthyText(TransSource(kind, r));
    }
  }

  lemma OfferedIsTruthyText(xs: seq<Option<string>>)
    ensures forall x :: Offered(xs, x) <==> x in Texts(xs) && x != ""
  {
    var t := Texts(xs);
    forall x ensures Offered(xs, x) <==> x in t && x != "" {
      if x in t && x != "" {
        var i :| 0 <= i < |t| && t[i] == x;
        assert Present(xs[i]) && xs[i].value == x;
      }
    }
  }

  /**
   * The harvested names keep first-seen order over the whole reading order,
   * alternative titles before translations.
   */
  lemma AllNamesFirstSeenOrder(db: Tmdb, kind: MediaType, id: int)
    requires AllNames(db, kind, id).0.Found?
    ensures var (info, names) := AllNames(db, kind, id);
      var stream := NameStream(kind, info.rec);
      forall i, j :: 0 <= i < j < |names| ==>
        names[i] in stream && names[j] in stream && FirstIndex(stream, names[i]) < FirstIndex(stream, names[j])
  {
    var (info, names) := AllNames(db, kind, id);
    var r := info.rec;
    AddNewConcat([], Texts(AltSource(kind, r)), Texts(TransSource(kind, r)), NonEmpty);
    AddNewOrder([], NameStream(kind, r), NonEmpty);
  }
}
