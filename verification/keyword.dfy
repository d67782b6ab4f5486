/**
 * The decision parts of `__search_engine`, the keyword fallback: the
 * rank/count bucket scoring `cal_score`, the case-insensitive accumulation
 * of scores into one insertion-ordered map, and the top-two tie-break that
 * picks the supplementary search phrase.
 *
 * The scraping is not modelled: each engine's page is given as the list of
 * emphasised terms that survived the similarity filter (plus, for Bing, the
 * entity-panel title and its "Movie" marker). Scores are `real`, since the
 * configured weights need not be integers; Python's `int()` on a score is
 * truncation toward zero.
 */
module Keyword {
  import opened Wrappers
  import opened Seqs
  import opened Text

  /** The three weight tables, for 10 or more terms (`w1`), 5 to 9 (`w2`) and fewer than 5 (`w3`). */
  datatype Weights = Weights(w1: seq<real>, w2: seq<real>, w3: seq<real>)

  /** The table lengths the scoring indexes into. */
  predicate ValidWeights(w: Weights)
  {
    |w.w1| == 5 && |w.w2| == 3 && |w.w3| == 2
  }

  /** Each table scores earlier buckets at least as high as later ones. */
  predicate Decaying(w: Weights)
    requires ValidWeights(w)
  {
    && w.w1[0] >= w.w1[1] >= w.w1[2] >= w.w1[3] >= w.w1[4]
    && w.w2[0] >= w.w2[1] >= w.w2[2]
    && w.w3[0] >= w.w3[1]
  }

  function Pow2(k: nat): (r: nat)
    ensures r >= 1
  {
    if k == 0 then 1 else 2 * Pow2(k - 1)
  }

  /** Python's `n >> k` on a non-negative integer: `k` floor halvings. */
  function Shr(n: nat, k: nat): nat
    decreases k
  {
    if k == 0 then n else Shr(n / 2, k - 1)
  }

  /** A number below `2^k` shifts to zero. */
  lemma {:induction false} ShrBelow(n: nat, k: nat)
    requires n < Pow2(k)
    ensures Shr(n, k) == 0
    decreases k
  {
    if k > 0 {
      ShrBelow(n / 2, k - 1);
    }
  }

  lemma {:induction false} Pow2Exceeds(n: nat)
    ensures n < Pow2(n)
  {
    if n > 0 {
      Pow2Exceeds(n - 1);
    }
  }

  lemma {:induction false} Pow2Monotone(a: nat, b: nat)
    requires a <= b
    ensures Pow2(a) <= Pow2(b)
    decreases b
  {
    if a < b {
      Pow2Monotone(a, b - 1);
    }
  }

  /**
   * The bound guarding the fourth weight of the large table, as written:
   * `n >> 2 + n >> 1`, which Python groups as `(n >> (2 + n)) >> 1`.
   */
  function FourthBound(n: nat): nat
  {
    Shr(Shr(n, 2 + n), 1)
  }

  /** The grouping makes the bound zero for every count. */
  lemma FourthBoundIsZero(n: nat)
    ensures FourthBound(n) == 0
  {
    Pow2Exceeds(n);
    Pow2Monotone(n, 2 + n);
    ShrBelow(n, 2 + n);
    assert Shr(0, 1) == 0;
  }

  /** `cal_score`'s weight for the term at rank `i` of `n` terms. */
  function Bucket(w: Weights, i: nat, n: nat): (r: real)
    requires ValidWeights(w)
    ensures n < 5 ==> r in w.w3
    ensures 5 <= n < 10 ==> r in w.w2
    ensures 10 <= n ==> r in w.w1
    ensures i < 2 ==> r == if n < 5 then w.w3[0] else if n < 10 then w.w2[0] else w.w1[0]
  {
    if n < 5 then
      if i < 2 then w.w3[0] else w.w3[1]
    else if n < 10 then
      if i < 2 then w.w2[0] else if i < Shr(n, 1) then w.w2[1] else w.w2[2]
    else
      if i < 2 then w.w1[0]
      else if i < Shr(n, 2) then w.w1[1]
      else if i < Shr(n, 1) then w.w1[2]
      else if i < FourthBound(n) then w.w1[3]
      else w.w1[4]
  }

  /**
   * For 10 or more terms the fourth weight is never used: ranks from `n/2`
   * on all score the fifth.
   */
  lemma FourthWeightUnused(w: Weights, i: nat, n: nat)
    requires ValidWeights(w) && n >= 10
    ensures Bucket(w, i, n) == if i < 2 then w.w1[0] else if i < n / 4 then w.w1[1] else if i < n / 2 then w.w1[2] else w.w1[4]
  {
    FourthBoundIsZero(n);
    assert Shr(n, 1) == n / 2;
    assert Shr(n, 2) == n / 2 / 2 == n / 4;
  }

  /** With decaying tables an earlier rank never scores below a later one. */
  lemma BucketDecays(w: Weights, i: nat, j: nat, n: nat)
    requires ValidWeights(w) && Decaying(w)
    requires i <= j
    ensures Bucket(w, i, n) >= Bucket(w, j, n)
  {
    FourthBoundIsZero(n);
  }

  /** An insertion-ordered score map (a Python dict from term to score). */
  type Scores = seq<(string, real)>

  function Keys(d: Scores): (ks: seq<string>)
    ensures |ks| == |d|
    ensures forall i :: 0 <= i < |d| ==> ks[i] == d[i].0
  {
    if d == [] then [] else [d[0].0] + Keys(d[1..])
  }

  /** The score stored under `k`, or zero when `k` is absent. */
  function Score(d: Scores, k: string): real
  {
    if d == [] then 0.0 else if d[0].0 == k then d[0].1 else Score(d[1..], k)
  }

  /** `r_dict[k] += s` when `k` is present, `r_dict[k] = s` otherwise. */
  function Bump(d: Scores, k: string, s: real): (r: Scores)
    ensures Keys(r) == if k in Keys(d) then Keys(d) else Keys(d) + [k]
    ensures forall k' :: Score(r, k') == Score(d, k') + if k' == k then s else 0.0
    ensures Distinct(Keys(d)) ==> Distinct(Keys(r))
  {
    if d == [] then [(k, s)]
    else if d[0].0 == k then [(k, d[0].1 + s)] + d[1..]
    else
      var t := Bump(d[1..], k, s);
      assert Keys([d[0]] + t) == [d[0].0] + Keys(t);
      assert Keys(d) == [d[0].0] + Keys(d[1..]);
      [d[0]] + t
  }

  /** Some term from rank `i` on lower-cases to `k`. */
  predicate LowersTo(tx: TextOps, terms: seq<string>, i: nat, k: string)
  {
    exists j :: i <= j < |terms| && tx.lower(terms[j]) == k
  }

  lemma LowersToStep(tx: TextOps, terms: seq<string>, i: nat, k: string)
    requires i < |terms|
    ensures LowersTo(tx, terms, i, k) <==> tx.lower(terms[i]) == k || LowersTo(tx, terms, i + 1, k)
  {
    if LowersTo(tx, terms, i, k) && tx.lower(terms[i]) != k {
      var j :| i <= j < |terms| && tx.lower(terms[j]) == k;
      assert i + 1 <= j;
    }
  }

  lemma LowersToSplit(tx: TextOps, terms: seq<string>, i: nat)
    requires i < |terms|
    ensures forall k :: LowersTo(tx, terms, i, k) <==> tx.lower(terms[i]) == k || LowersTo(tx, terms, i + 1, k)
  {
    forall k ensures LowersTo(tx, terms, i, k) <==> tx.lower(terms[i]) == k || LowersTo(tx, terms, i + 1, k) {
      LowersToStep(tx, terms, i, k);
    }
  }

  /** `cal_score` from rank `i` on: each term's weight added under its lower-cased form. */
  function CalFrom(tx: TextOps, w: Weights, terms: seq<string>, i: nat, d: Scores): (r: Scores)
    requires ValidWeights(w) && i <= |terms|
    ensures Keys(d) <= Keys(r)
    ensures forall k :: k in Keys(r) <==> k in Keys(d) || LowersTo(tx, terms, i, k)
    ensures Distinct(Keys(d)) ==> Distinct(Keys(r))
    decreases |terms| - i
  {
    if i == |terms| then d
    else
      var d' := Bump(d, tx.lower(terms[i]), Bucket(w, i, |terms|));
      var r := CalFrom(tx, w, terms, i + 1, d');
      LowersToSplit(tx, terms, i);
      r
  }

  /** `cal_score(terms, d)`: existing keys keep their order, and each lower-cased term is a key. */
  function CalScore(tx: TextOps, w: Weights, terms: seq<string>, d: Scores): (r: Scores)
    requires ValidWeights(w)
    ensures Keys(d) <= Keys(r)
    ensures forall k :: k in Keys(r) <==> k in Keys(d) || LowersTo(tx, terms, 0, k)
    ensures Distinct(Keys(d)) ==> Distinct(Keys(r))
  {
    CalFrom(tx, w, terms, 0, d)
  }

  /** The total weight the terms from rank `i` on contribute to key `k`. */
  function Contribution(tx: TextOps, w: Weights, terms: seq<string>, i: nat, k: string): real
    requires ValidWeights(w) && i <= |terms|
    decreases |terms| - i
  {
    if i == |terms| then 0.0
    else (if tx.lower(terms[i]) == k then Bucket(w, i, |terms|) else 0.0) + Contribution(tx, w, terms, i + 1, k)
  }

  /** Accumulation: every key's score grows by exactly the weights of the terms that lower-case to it. */
  lemma {:induction false} CalFromScore(tx: TextOps, w: Weights, terms: seq<string>, i: nat, d: Scores, k: string)
    requires ValidWeights(w) && i <= |terms|
    ensures Score(CalFrom(tx, w, terms, i, d), k) == Score(d, k) + Contribution(tx, w, terms, i, k)
    decreases |terms| - i
  {
    if i < |terms| {
      var d' := Bump(d, tx.lower(terms[i]), Bucket(w, i, |terms|));
      CalFromScore(tx, w, terms, i + 1, d', k);
    }
  }

  /** The scores of one `cal_score` call. */
  lemma CalScoreAccumulates(tx: TextOps, w: Weights, terms: seq<string>, d: Scores, k: string)
    requires ValidWeights(w)
    ensures Score(CalScore(tx, w, terms, d), k) == Score(d, k) + Contribution(tx, w, terms, 0, k)
    ensures k in Keys(CalScore(tx, w, terms, d)) <==> k in Keys(d) || LowersTo(tx, terms, 0, k)
  {
    CalFromScore(tx, w, terms, 0, d, k);
  }

  /** Terms differing only in case share one key: the lower-cased keys make the map case-insensitive. */
  lemma CaseInsensitive(tx: TextOps, w: Weights, terms: seq<string>, terms': seq<string>, d: Scores, k: string)
    requires ValidWeights(w) && |terms| == |terms'|
    requires forall j :: 0 <= j < |terms| ==> tx.lower(terms[j]) == tx.lower(terms'[j])
    ensures Score(CalScore(tx, w, terms, d), k) == Score(CalScore(tx, w, terms', d), k)
  {
    CalFromScore(tx, w, terms, 0, d, k);
    CalFromScore(tx, w, terms', 0, d, k);
    ContributionSameKeys(tx, w, terms, terms', 0, k);
  }

  lemma {:induction false} ContributionSameKeys(tx: TextOps, w: Weights, terms: seq<string>, terms': seq<string>, i: nat, k: string)
    requires ValidWeights(w) && |terms| == |terms'| && i <= |terms|
    requires forall j :: 0 <= j < |terms| ==> tx.lower(terms[j]) == tx.lower(terms'[j])
    ensures Contribution(tx, w, terms, i, k) == Contribution(tx, w, terms', i, k)
    decreases |terms| - i
  {
    if i < |terms| {
      ContributionSameKeys(tx, w, terms, terms', i + 1, k);
    }
  }

  /**
   * `d[r]` comes first in a stable sort by descending score among the
   * entries other than `skip`: no other entry scores higher, and every
   * earlier one scores strictly lower.
   */
  predicate IsFirstMax(d: Scores, skip: int, r: int)
  {
    && 0 <= r < |d| && r != skip
    && forall k :: 0 <= k < |d| && k != skip ==> d[k].1 <= d[r].1 && (k < r ==> d[k].1 < d[r].1)
  }

  /** The first position of a maximal score, other than `skip`, scanning from `j` with `best` the winner so far. */
  function FirstMax(d: Scores, skip: int, j: nat, best: nat): (r: nat)
    requires best < |d| && best != skip && best < j <= |d|
    requires forall k :: 0 <= k < j && k != skip ==> d[k].1 <= d[best].1 && (k < best ==> d[k].1 < d[best].1)
    ensures IsFirstMax(d, skip, r)
    decreases |d| - j
  {
    if j == |d| then best
    else if j as int != skip && d[j].1 > d[best].1 then FirstMax(d, skip, j + 1, j)
    else FirstMax(d, skip, j + 1, best)
  }

  /** At most one entry comes first. */
  lemma FirstMaxUnique(d: Scores, skip: int, a: int, b: int)
    requires IsFirstMax(d, skip, a) && IsFirstMax(d, skip, b)
    ensures a == b
  {
    FirstMaxSameScore(d, skip, a, b);
  }

  lemma FirstMaxSameScore(d: Scores, skip: int, a: int, b: int)
    requires IsFirstMax(d, skip, a) && IsFirstMax(d, skip, b)
    ensures d[a].1 == d[b].1
  {
  }

  /** `ret[0]` of the sorted items: the first entry with the highest score. */
  function Leader(d: Scores): (r: nat)
    requires |d| >= 1
    ensures IsFirstMax(d, -1, r)
  {
    FirstMax(d, -1, 1, 0)
  }

  /** `ret[1]`: the first entry with the highest score among the rest. */
  function RunnerUp(d: Scores): (r: nat)
    requires |d| >= 2
    ensures IsFirstMax(d, Leader(d), r)
  {
    var l := Leader(d);
    var start := if l == 0 then 1 else 0;
    FirstMax(d, l, start + 1, start)
  }

  /** Python's `int()` on a score: truncation toward zero. */
  function Trunc(x: real): int
  {
    if x >= 0.0 then x.Floor else -((-x).Floor)
  }

  /**
   * The tie-break: a single entry wins; when the leader's text occurs in the
   * runner-up's, the leader still wins with a truncated score of at least
   * 100, with a truncated lead above `threshold`, or when removing it from the
   * runner-up leaves (after stripping) the leader itself; otherwise the
   * runner-up wins. Without containment the leader wins.
   */
  function TieBreak(tx: TextOps, threshold: int, d: Scores): (k: string)
    requires |d| >= 1
    ensures k == d[Leader(d)].0 || (|d| >= 2 && k == d[RunnerUp(d)].0)
  {
    if |d| == 1 then d[0].0
    else
      var pre := d[Leader(d)];
      var next := d[RunnerUp(d)];
      if Contains(next.0, pre.0) then
        if Trunc(pre.1) >= 100 then pre.0
        else if Trunc(pre.1) - Trunc(next.1) > threshold then pre.0
        else if tx.strip(RemoveAll(next.0, pre.0)) == pre.0 then pre.0
        else next.0
      else pre.0
  }

  /**
   * The keyword is the leader's or the runner-up's text. The runner-up's is
   * chosen exactly when the leader's text occurs in it, the leader's
   * truncated score is below 100, its lead is within the threshold, and
   * removing the leader's text from the runner-up's does not leave the
   * leader's text.
   */
  lemma TieBreakChoice(tx: TextOps, threshold: int, d: Scores)
    requires |d| >= 2
    ensures var k := TieBreak(tx, threshold, d);
      var pre := d[Leader(d)];
      var next := d[RunnerUp(d)];
      && (k == pre.0 || k == next.0)
      && (k != pre.0 ==> Contains(next.0, pre.0) && Trunc(pre.1) < 100 && Trunc(pre.1) - Trunc(next.1) <= threshold)
      && (!Contains(next.0, pre.0) ==> k == pre.0)
      && ((&& Contains(next.0, pre.0)
           && Trunc(pre.1) < 100
           && Trunc(pre.1) - Trunc(next.1) <= threshold
           && tx.strip(RemoveAll(next.0, pre.0)) != pre.0) ==> k == next.0)
  {
  }

  /** A map with one entry yields that entry's text. */
  lemma TieBreakSingle(tx: TextOps, threshold: int, k: string, s: real)
    ensures TieBreak(tx, threshold, [(k, s)]) == k
  {
  }

  /** The keyword is always one of the scored texts. */
  lemma TieBreakIsKey(tx: TextOps, threshold: int, d: Scores)
    requires |d| >= 1
    ensures TieBreak(tx, threshold, d) in Keys(d)
  {
  }

  /** What the Bing results page yields: the surviving emphasised terms, the entity-panel title, the "Movie" marker. */
  datatype BingPage = BingPage(terms: seq<string>, title: Option<string>, movieMarker: bool)

  /** The two result pages for a query; `None` when there is no usable page. */
  datatype Engines = Engines(bing: string -> Option<BingPage>, baidu: string -> Option<seq<string>>)

  datatype KeywordConfig = KeywordConfig(weights: Weights, diffThreshold: int)

  /** The surviving emphasised terms of a Bing page; none without a page. */
  function BingTerms(page: Option<BingPage>): seq<string>
  {
    if page.Some? then page.value.terms else []
  }

  /** The key the entity-panel title is seeded under: only when some term survives, with the year suffix dropped and the case kept. */
  function TitleKey(tx: TextOps, page: Option<BingPage>): Option<string>
  {
    if page.Some? && page.value.terms != [] && page.value.title.Some? then Some(tx.dropYearSuffix(page.value.title.value))
    else None
  }

  /** The Bing contribution: the panel title at 200 (un-lowered) and the terms, when any term survives. */
  function BingScores(tx: TextOps, w: Weights, page: Option<BingPage>): (res: (Scores, bool))
    requires ValidWeights(w)
    ensures res.1 ==> page.Some? && page.value.terms != [] && page.value.title.Some? && page.value.movieMarker
    ensures page.None? || page.value.terms == [] ==> res == ([], false)
    ensures page.Some? && page.value.terms != [] ==> res.1 == (page.value.title.Some? && page.value.movieMarker)
  {
    match page
    case None => ([], false)
    case Some(p) =>
      if p.terms == [] then ([], false)
      else
        var seed: Scores := if p.title.Some? then [(tx.dropYearSuffix(p.title.value), 200.0)] else [];
        (CalScore(tx, w, p.terms, seed), p.title.Some? && p.movieMarker)
  }

  /**
   * Bing's scores: the panel title holds exactly 200 plus whatever the terms
   * add under the same key, and every other key holds exactly the terms'
   * weights. The title key is not lower-cased, so a term matches it only when
   * lower-casing leaves the title unchanged.
   */
  lemma BingScoresScore(tx: TextOps, w: Weights, page: Option<BingPage>, k: string)
    requires ValidWeights(w)
    ensures Score(BingScores(tx, w, page).0, k)
      == (if TitleKey(tx, page) == Some(k) then 200.0 else 0.0) + Contribution(tx, w, BingTerms(page), 0, k)
    ensures k in Keys(BingScores(tx, w, page).0) <==> TitleKey(tx, page) == Some(k) || LowersTo(tx, BingTerms(page), 0, k)
  {
    if page.Some? && page.value.terms != [] {
      var p := page.value;
      var seed: Scores := if p.title.Some? then [(tx.dropYearSuffix(p.title.value), 200.0)] else [];
      CalScoreAccumulates(tx, w, p.terms, seed, k);
    }
  }

  /** The emphasised terms of a Baidu page; none without a page. */
  function BaiduTerms(page: Option<seq<string>>): seq<string>
  {
    if page.Some? then page.value else []
  }

  /** The Baidu contribution, folded into the Bing scores. */
  function BaiduScores(tx: TextOps, w: Weights, page: Option<seq<string>>, d: Scores): (r: Scores)
    requires ValidWeights(w)
    ensures Keys(d) <= Keys(r)
    ensures BaiduTerms(page) == [] ==> r == d
  {
    match page
    case None => d
    case Some(ems) => if |ems| > 0 then CalScore(tx, w, ems, d) else d
  }

  /** The Baidu terms add exactly their weights to each key, on top of what was there. */
  lemma BaiduScoresScore(tx: TextOps, w: Weights, page: Option<seq<string>>, d: Scores, k: string)
    requires ValidWeights(w)
    ensures Score(BaiduScores(tx, w, page, d), k) == Score(d, k) + Contribution(tx, w, BaiduTerms(page), 0, k)
    ensures k in Keys(BaiduScores(tx, w, page, d)) <==> k in Keys(d) || LowersTo(tx, BaiduTerms(page), 0, k)
  {
    if page.Some? && |page.value| > 0 {
      CalScoreAccumulates(tx, w, page.value, d, k);
    }
  }

  /** The score map both engines build for `feature`, and whether Bing's panel title was marked a movie. */
  function EngineScores(tx: TextOps, w: Weights, pages: Engines, feature: string): (res: (Scores, bool))
    requires ValidWeights(w)
    ensures res.1 <==> TitleKey(tx, pages.bing(feature)).Some? && pages.bing(feature).value.movieMarker
  {
    var (d, isMovie) := BingScores(tx, w, pages.bing(feature));
    (BaiduScores(tx, w, pages.baidu(feature), d), isMovie)
  }

  /**
   * The combined score of a key: 200 if it is Bing's panel title, plus the
   * weights of the Bing terms and of the Baidu terms that lower-case to it;
   * a key is scored exactly when one of these sources names it.
   */
  lemma EngineScoresScore(tx: TextOps, w: Weights, pages: Engines, feature: string, k: string)
    requires ValidWeights(w)
    ensures var bing := pages.bing(feature);
      var baidu := pages.baidu(feature);
      Score(EngineScores(tx, w, pages, feature).0, k)
        == (if TitleKey(tx, bing) == Some(k) then 200.0 else 0.0)
           + Contribution(tx, w, BingTerms(bing), 0, k) + Contribution(tx, w, BaiduTerms(baidu), 0, k)
    ensures var bing := pages.bing(feature);
      var baidu := pages.baidu(feature);
      (k in Keys(EngineScores(tx, w, pages, feature).0)) ==
        (TitleKey(tx, bing) == Some(k) || LowersTo(tx, BingTerms(bing), 0, k) || LowersTo(tx, BaiduTerms(baidu), 0, k))
  {
    var d := BingScores(tx, w, pages.bing(feature)).0;
    BingScoresScore(tx, w, pages.bing(feature), k);
    BaiduScoresScore(tx, w, pages.baidu(feature), d, k);
  }

  /**
   * `__search_engine`: an empty name, a name the cleaner empties, or no
   * scored text yield `(None, False)`; otherwise the tie-break's keyword and
   * whether Bing marked the panel title a movie.
   */
  function SearchEngine(tx: TextOps, cfg: KeywordConfig, pages: Engines, featureName: string): (r: (Option<string>, bool))
    requires ValidWeights(cfg.weights)
    ensures featureName == "" ==> r == (None, false)
    ensures featureName != "" && tx.cleanFeature(featureName) == "" ==> r == (None, false)
    ensures r.0.None? ==> !r.1
    ensures r.0.Some? ==>
      var f := tx.cleanFeature(featureName);
      var d := EngineScores(tx, cfg.weights, pages, f).0;
      && f != "" && |d| >= 1 && r.0.value in Keys(d)
      && r.0.value == TieBreak(tx, cfg.diffThreshold, d)
    ensures var f := tx.cleanFeature(featureName);
      var e := EngineScores(tx, cfg.weights, pages, f);
      featureName != "" && f != "" ==>
        && (e.0 == [] ==> r == (None, false))
        && (e.0 != [] ==> r == (Some(TieBreak(tx, cfg.diffThreshold, e.0)), e.1))
  {
    if featureName == "" then (None, false)
    else
      var f := tx.cleanFeature(featureName);
      if f == "" then (None, false)
      else
        var (d, isMovie) := EngineScores(tx, cfg.weights, pages, f);
        if d == [] then (None, false)
        else
          TieBreakIsKey(tx, cfg.diffThreshold, d);
          (Some(TieBreak(tx, cfg.diffThreshold, d)), isMovie)
  }

  /** Only a Bing page with surviving terms, an entity-panel title and the "Movie" marker makes the keyword a movie. */
  lemma SearchEngineMovie(tx: TextOps, cfg: KeywordConfig, pages: Engines, featureName: string)
    requires ValidWeights(cfg.weights)
    requires SearchEngine(tx, cfg, pages, featureName).1
    ensures var p := pages.bing(tx.cleanFeature(featureName));
      p.Some? && p.value.terms != [] && p.value.title.Some? && p.value.movieMarker
  {
  }

  /** With no page from either engine there is no keyword. */
  lemma SearchEngineNoPages(tx: TextOps, cfg: KeywordConfig, pages: Engines, featureName: string)
    requires ValidWeights(cfg.weights)
    requires pages.bing(tx.cleanFeature(featureName)).None? && pages.baidu(tx.cleanFeature(featureName)).None?
    ensures SearchEngine(tx, cfg, pages, featureName) == (None, false)
  {
  }
}
