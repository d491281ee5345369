/** The score normaliser and blender of core/ml/hybrid.py: min-max rescaling
    of one candidate list, and a weighted union of a content list and a
    collaborative list that penalises candidates only one signal found. */
module Hybrid {
  import opened Common

  /** The signal a candidate came from ("similar" or "also_liked"). */
  datatype Signal = Similar | AlsoLiked

  /** A blended candidate with the signals that contributed to it. */
  datatype Blended = Blended(tmdbId: int, score: real, sources: seq<Signal>)

  function MinScore(recs: seq<Rec>): (lo: real)
    requires |recs| > 0
    ensures forall i :: 0 <= i < |recs| ==> lo <= recs[i].score
    ensures exists i :: 0 <= i < |recs| && recs[i].score == lo
  {
    if |recs| == 1 then recs[0].score
    else
      var rest := MinScore(recs[1..]);
      assert forall i :: 1 <= i < |recs| ==> recs[i] == recs[1..][i - 1];
      if recs[0].score <= rest then recs[0].score else rest
  }

  function MaxScore(recs: seq<Rec>): (hi: real)
    requires |recs| > 0
    ensures forall i :: 0 <= i < |recs| ==> recs[i].score <= hi
    ensures exists i :: 0 <= i < |recs| && recs[i].score == hi
  {
    if |recs| == 1 then recs[0].score
    else
      var rest := MaxScore(recs[1..]);
      assert forall i :: 1 <= i < |recs| ==> recs[i] == recs[1..][i - 1];
      if recs[0].score >= rest then recs[0].score else rest
  }

  /** All candidates of the list carry the same score. */
  ghost predicate Flat(recs: seq<Rec>)
  {
    forall i, j :: 0 <= i < |recs| && 0 <= j < |recs| ==> recs[i].score == recs[j].score
  }

  /** Division by a positive number keeps the order of the numerators. */
  lemma RescaleMonotone(a: real, b: real, lo: real, hi: real)
    requires lo < hi
    ensures a <= b <==> (a - lo) / (hi - lo) <= (b - lo) / (hi - lo)
  {
    var d := hi - lo;
    assert (a - lo) / d * d == a - lo;
    assert (b - lo) / d * d == b - lo;
    if (a - lo) / d <= (b - lo) / d {
      assert (a - lo) / d * d <= (b - lo) / d * d;
    }
  }

  lemma RescaleBounds(a: real, lo: real, hi: real)
    requires lo < hi && lo <= a <= hi
    ensures 0.0 <= (a - lo) / (hi - lo) <= 1.0
    ensures a == lo ==> (a - lo) / (hi - lo) == 0.0
    ensures a == hi ==> (a - lo) / (hi - lo) == 1.0
  {
    RescaleMonotone(a, hi, lo, hi);
    RescaleMonotone(lo, a, lo, hi);
  }

  /** A list has a flat score distribution exactly when its lowest and
      highest scores agree. */
  lemma FlatIffMinIsMax(recs: seq<Rec>)
    requires |recs| > 0
    ensures Flat(recs) <==> MinScore(recs) == MaxScore(recs)
  {
    if MinScore(recs) == MaxScore(recs) {
      forall i, j | 0 <= i < |recs| && 0 <= j < |recs| ensures recs[i].score == recs[j].score {
        assert MinScore(recs) <= recs[i].score <= MaxScore(recs);
      }
    } else {
      var i :| 0 <= i < |recs| && recs[i].score == MinScore(recs);
      var j :| 0 <= j < |recs| && recs[j].score == MaxScore(recs);
      assert recs[i].score != recs[j].score;
    }
  }

  /** The flat-distribution case: every candidate keeps its id and gets 1.0. */
  function AllOnes(recs: seq<Rec>): (r: seq<Rec>)
    ensures |r| == |recs|
    ensures forall i :: 0 <= i < |r| ==> r[i] == Rec(recs[i].tmdbId, 1.0)
  {
    seq(|recs|, i requires 0 <= i < |recs| => Rec(recs[i].tmdbId, 1.0))
  }

  /** Min-max rescaling with the list's own bounds `lo < hi`. */
  function Rescale(recs: seq<Rec>, lo: real, hi: real): (r: seq<Rec>)
    requires lo < hi
    requires forall i :: 0 <= i < |recs| ==> lo <= recs[i].score <= hi
    ensures |r| == |recs|
    ensures forall i :: 0 <= i < |r| ==> r[i].tmdbId == recs[i].tmdbId
    ensures forall i :: 0 <= i < |r| ==> 0.0 <= r[i].score <= 1.0
    ensures forall i :: 0 <= i < |r| && recs[i].score == lo ==> r[i].score == 0.0
    ensures forall i :: 0 <= i < |r| && recs[i].score == hi ==> r[i].score == 1.0
    ensures forall i, j :: 0 <= i < |r| && 0 <= j < |r| ==>
      (recs[i].score <= recs[j].score <==> r[i].score <= r[j].score)
  {
    var r := seq(|recs|, i requires 0 <= i < |recs| => Rec(recs[i].tmdbId, (recs[i].score - lo) / (hi - lo)));
    forall i | 0 <= i < |recs|
      ensures 0.0 <= r[i].score <= 1.0
      ensures recs[i].score == lo ==> r[i].score == 0.0
      ensures recs[i].score == hi ==> r[i].score == 1.0
    {
      RescaleBounds(recs[i].score, lo, hi);
    }
    forall i, j | 0 <= i < |recs| && 0 <= j < |recs|
      ensures recs[i].score <= recs[j].score <==> r[i].score <= r[j].score
    {
      RescaleMonotone(recs[i].score, recs[j].score, lo, hi);
    }
    r
  }

  /** The score lookup `{r["tmdb_id"]: r["score"] for r in recs}`: every id
      of the list is a key, and a repeated id keeps its last entry's score. */
  function ScoreMap(recs: seq<Rec>): (m: map<int, real>)
    ensures forall i :: 0 <= i < |recs| ==> recs[i].tmdbId in m
    ensures forall id :: id in m ==>
      exists i :: 0 <= i < |recs| && recs[i].tmdbId == id && m[id] == recs[i].score &&
        (forall j :: i < j < |recs| ==> recs[j].tmdbId != id)
  {
    var ids := Ids(recs);
    var m := ZipMap(ids, Scores(recs));
    assert forall i :: 0 <= i < |recs| ==> ids[i] in m;
    assert forall id :: id in m ==> var i := LastIndexOf(ids, id); recs[i].tmdbId == id && m[id] == recs[i].score;
    m
  }

  /** The ids of a candidate list, as a set. */
  function IdSet(recs: seq<Rec>): (ids: set<int>)
    ensures forall i :: 0 <= i < |recs| ==> recs[i].tmdbId in ids
    ensures forall id :: id in ids ==> exists i :: 0 <= i < |recs| && recs[i].tmdbId == id
  {
    set i | 0 <= i < |recs| :: recs[i].tmdbId
  }

  /** The lookup built from a normalised list has exactly the ids of the raw
      list as its keys. */
  lemma NormalizedKeys(recs: seq<Rec>)
    ensures ScoreMap(NormalizeScores(recs)).Keys == IdSet(recs)
  {
    var norm := NormalizeScores(recs);
    SameIdsSameIdSet(norm, recs);
    assert forall id :: id in Ids(norm) ==> id in IdSet(norm);
    assert forall id :: id in IdSet(norm) ==> id in Ids(norm) by {
      forall id | id in IdSet(norm) ensures id in Ids(norm) {
        var i :| 0 <= i < |norm| && norm[i].tmdbId == id;
        assert Ids(norm)[i] == id;
      }
    }
  }

  lemma SameIdsSameIdSet(a: seq<Rec>, b: seq<Rec>)
    requires |a| == |b|
    requires forall i :: 0 <= i < |a| ==> a[i].tmdbId == b[i].tmdbId
    ensures IdSet(a) == IdSet(b)
  {
    forall id | id in IdSet(a) ensures id in IdSet(b) {
      var i :| 0 <= i < |a| && a[i].tmdbId == id;
      assert b[i].tmdbId == id;
    }
    forall id | id in IdSet(b) ensures id in IdSet(a) {
      var i :| 0 <= i < |b| && b[i].tmdbId == id;
      assert a[i].tmdbId == id;
    }
  }

  /** `normalize_scores`: one entry per input, same ids in the same order,
      every score in [0, 1]. When the lowest and highest scores agree every
      score becomes 1.0; otherwise the lowest score maps to 0, the highest
      to 1, and the rescaling keeps the order of any two scores. */
  function NormalizeScores(recs: seq<Rec>): (r: seq<Rec>)
    ensures |r| == |recs|
    ensures forall i :: 0 <= i < |r| ==> r[i].tmdbId == recs[i].tmdbId
    ensures forall i :: 0 <= i < |r| ==> 0.0 <= r[i].score <= 1.0
    ensures |recs| > 0 && MinScore(recs) == MaxScore(recs) ==>
      forall i :: 0 <= i < |r| ==> r[i].score == 1.0
    ensures |recs| > 0 && MinScore(recs) < MaxScore(recs) ==>
      && (forall i :: 0 <= i < |r| && recs[i].score == MinScore(recs) ==> r[i].score == 0.0)
      && (forall i :: 0 <= i < |r| && recs[i].score == MaxScore(recs) ==> r[i].score == 1.0)
      && (forall i, j :: 0 <= i < |r| && 0 <= j < |r| ==>
            (recs[i].score <= recs[j].score <==> r[i].score <= r[j].score))
  {
    if |recs| == 0 then []
    else
      var lo := MinScore(recs);
      var hi := MaxScore(recs);
      if hi == lo then AllOnes(recs) else Rescale(recs, lo, hi)
  }

  /** The flat-distribution special case: if every input score is the same,
      every output score is exactly 1.0. */
  lemma FlatNormalizesToOne(recs: seq<Rec>)
    requires Flat(recs)
    ensures forall i :: 0 <= i < |recs| ==> NormalizeScores(recs)[i].score == 1.0
  {
    if |recs| > 0 {
      FlatIffMinIsMax(recs);
    }
  }

  /** Otherwise the lowest input score maps to 0 and the highest to 1. */
  lemma NotFlatSpansUnit(recs: seq<Rec>)
    requires !Flat(recs)
    ensures |recs| > 0
    ensures exists i :: 0 <= i < |recs| && NormalizeScores(recs)[i].score == 0.0
    ensures exists i :: 0 <= i < |recs| && NormalizeScores(recs)[i].score == 1.0
  {
    FlatIffMinIsMax(recs);
    var i :| 0 <= i < |recs| && recs[i].score == MinScore(recs);
    var j :| 0 <= j < |recs| && recs[j].score == MaxScore(recs);
    assert NormalizeScores(recs)[i].score == 0.0;
    assert NormalizeScores(recs)[j].score == 1.0;
  }

  /** A lookup built from a normalised list only holds scores in [0, 1]. */
  lemma NormalizedMapBounds(recs: seq<Rec>)
    ensures forall id :: id in ScoreMap(NormalizeScores(recs)) ==>
      0.0 <= ScoreMap(NormalizeScores(recs))[id] <= 1.0
  {
    var norm := NormalizeScores(recs);
    forall id | id in ScoreMap(norm) ensures 0.0 <= ScoreMap(norm)[id] <= 1.0 {
      var k := LastIndexOf(Ids(norm), id);
      assert ScoreMap(norm)[id] == norm[k].score;
    }
  }

  /** The entry blend builds for one id of the union: the sources list names
      "similar" iff the id has a content score and "also_liked" iff it has a
      collaborative score, in that order. */
  function BlendEntry(id: int, cb: map<int, real>, cf: map<int, real>, alpha: real): (b: Blended)
    requires id in cb || id in cf
    ensures b.tmdbId == id
    ensures Similar in b.sources <==> id in cb
    ensures AlsoLiked in b.sources <==> id in cf
    ensures |b.sources| == (if id in cb then 1 else 0) + (if id in cf then 1 else 0)
    ensures id in cb ==> b.sources[0] == Similar
  {
    var sources := (if id in cb then [Similar] else []) + (if id in cf then [AlsoLiked] else []);
    var score :=
      if id in cb && id in cf then alpha * cb[id] + (1.0 - alpha) * cf[id]
      else if id in cb then cb[id] * alpha
      else cf[id] * (1.0 - alpha);
    Blended(id, score, sources)
  }

  /** For a weight in [0, 1] and normalised scores, a candidate both signals
      found scores at least the penalised single-signal score of either
      signal alone, and every blended score lies in [0, 1]. */
  lemma CorroborationRewarded(id: int, cb: map<int, real>, cf: map<int, real>, alpha: real)
    requires 0.0 <= alpha <= 1.0
    requires id in cb && id in cf
    requires 0.0 <= cb[id] <= 1.0 && 0.0 <= cf[id] <= 1.0
    ensures BlendEntry(id, cb, cf, alpha).score >= BlendEntry(id, cb, map[], alpha).score
    ensures BlendEntry(id, cb, cf, alpha).score >= BlendEntry(id, map[], cf, alpha).score
    ensures 0.0 <= BlendEntry(id, cb, cf, alpha).score <= 1.0
  {
    var c, f := cb[id], cf[id];
    ProductInUnit(alpha, c);
    ProductInUnit(1.0 - alpha, f);
    var both := alpha * c + (1.0 - alpha) * f;
    assert alpha * c <= alpha && (1.0 - alpha) * f <= 1.0 - alpha;
    assert both <= 1.0;
    assert BlendEntry(id, cb, cf, alpha).score == both;
  }

  lemma ProductInUnit(w: real, x: real)
    requires 0.0 <= w <= 1.0 && 0.0 <= x <= 1.0
    ensures 0.0 <= w * x <= w
  {
    assert w * (1.0 - x) >= 0.0;
  }

  /** Inserting `x` after every entry that scores at least as high keeps a
      list sorted by descending score and adds `x` to its contents. */
  lemma InsertSorted(r: seq<Blended>, x: Blended, p: nat)
    requires p <= |r|
    requires forall a, b :: 0 <= a < b < |r| ==> r[a].score >= r[b].score
    requires forall a :: 0 <= a < p ==> r[a].score >= x.score
    requires p < |r| ==> r[p].score < x.score
    ensures multiset(r[..p] + [x] + r[p..]) == multiset(r) + multiset{x}
    ensures var next := r[..p] + [x] + r[p..];
      forall a, b :: 0 <= a < b < |next| ==> next[a].score >= next[b].score
  {
    assert r == r[..p] + r[p..];
    var next := r[..p] + [x] + r[p..];
    forall a, b | 0 <= a < b < |next| ensures next[a].score >= next[b].score {
      if b == p {
        assert next[a] == r[a];
      } else if a == p {
        assert next[b] == r[b - 1];
        assert r[p].score >= r[b - 1].score || b - 1 == p;
      } else if b < p {
        assert next[a] == r[a] && next[b] == r[b];
      } else if a < p {
        assert next[a] == r[a] && next[b] == r[b - 1];
      } else {
        assert next[a] == r[a - 1] && next[b] == r[b - 1];
      }
    }
  }

  /** The first position whose entry scores lower than `x`. */
  method InsertionPoint(r: seq<Blended>, x: Blended) returns (p: nat)
    ensures p <= |r|
    ensures forall a :: 0 <= a < p ==> r[a].score >= x.score
    ensures p < |r| ==> r[p].score < x.score
  {
    p := 0;
    while p < |r| && r[p].score >= x.score
      invariant 0 <= p <= |r|
      invariant forall a :: 0 <= a < p ==> r[a].score >= x.score
    {
      p := p + 1;
    }
  }

  /** Sorting by descending score, as `list.sort(key=..., reverse=True)`
      does: the result is a permutation of the input in non-increasing score
      order. The relative order of equal scores is not part of the contract. */
  method SortByScoreDesc(s: seq<Blended>) returns (r: seq<Blended>)
    ensures multiset(r) == multiset(s)
    ensures forall i, j :: 0 <= i < j < |r| ==> r[i].score >= r[j].score
  {
    r := [];
    var i := 0;
    while i < |s|
      invariant 0 <= i <= |s|
      invariant multiset(r) == multiset(s[..i])
      invariant forall a, b :: 0 <= a < b < |r| ==> r[a].score >= r[b].score
    {
      var p := InsertionPoint(r, s[i]);
      InsertSorted(r, s[i], p);
      assert s[..i + 1] == s[..i] + [s[i]];
      r := r[..p] + [s[i]] + r[p..];
      i := i + 1;
    }
    assert s[..i] == s;
  }

  /** The candidates blend returns when there is no collaborative list. */
  function ContentOnly(cbRecs: seq<Rec>, n: nat): (r: seq<Blended>)
    ensures |r| == Min(n, |cbRecs|)
    ensures forall i :: 0 <= i < |r| ==> r[i] == Blended(cbRecs[i].tmdbId, cbRecs[i].score, [Similar])
  {
    var top := Take(cbRecs, n);
    seq(|top|, i requires 0 <= i < |top| => Blended(top[i].tmdbId, top[i].score, [Similar]))
  }

  function BlendIds(out: seq<Blended>): (ids: seq<int>)
    ensures |ids| == |out|
    ensures forall i :: 0 <= i < |out| ==> ids[i] == out[i].tmdbId
  {
    seq(|out|, i requires 0 <= i < |out| => out[i].tmdbId)
  }

  /** `out` is what blend returns from the union `all` of the two lookups:
      its `n` best entries (or all of them), each the blended entry of its
      id, with distinct ids and non-increasing scores, and no id left out
      scoring higher than one that was kept. */
  ghost predicate IsTopBlend(out: seq<Blended>, all: set<int>, cb: map<int, real>, cf: map<int, real>,
                             alpha: real, n: nat)
    requires forall id :: id in all ==> id in cb || id in cf
  {
    && |out| == Min(n, |all|)
    && Distinct(BlendIds(out))
    && (forall i :: 0 <= i < |out| ==> out[i].tmdbId in all && out[i] == BlendEntry(out[i].tmdbId, cb, cf, alpha))
    && (forall i, j :: 0 <= i < j < |out| ==> out[i].score >= out[j].score)
    && (forall id, i :: id in all && id !in BlendIds(out) && 0 <= i < |out| ==>
          BlendEntry(id, cb, cf, alpha).score <= out[i].score)
  }

  /** `blend`. Without collaborative candidates: the first `n` content
      candidates with their raw (not normalised) scores, each tagged
      "similar". Otherwise both lists are normalised and the result is the
      top `n` of the union of their ids (the ids of the raw lists, as
      NormalizedKeys shows). */
  method Blend(cbRecs: seq<Rec>, cfRecs: seq<Rec>, alpha: real, n: nat) returns (out: seq<Blended>)
    ensures |cfRecs| == 0 ==> out == ContentOnly(cbRecs, n)
    ensures |cfRecs| > 0 ==>
      var cb := ScoreMap(NormalizeScores(cbRecs));
      var cf := ScoreMap(NormalizeScores(cfRecs));
      IsTopBlend(out, cb.Keys + cf.Keys, cb, cf, alpha, n)
  {
    if |cfRecs| == 0 {
      var top := Take(cbRecs, n);
      out := seq(|top|, i requires 0 <= i < |top| => Blended(top[i].tmdbId, top[i].score, [Similar]));
      return;
    }
    var cb := ScoreMap(NormalizeScores(cbRecs));
    var cf := ScoreMap(NormalizeScores(cfRecs));
    var all := cb.Keys + cf.Keys;
    var blended := BlendUnion(all, cb, cf, alpha);
    var sorted := SortByScoreDesc(blended);
    PermutationKeepsEntries(blended, sorted, all, cb, cf, alpha);
    out := Take(sorted, n);
    TopOfSorted(sorted, n, all, cb, cf, alpha);
  }

  /** The loop of blend that builds one entry per id of the union. Python
      visits the set in an order of its own choosing; so does this loop. */
  method BlendUnion(all: set<int>, cb: map<int, real>, cf: map<int, real>, alpha: real)
    returns (blended: seq<Blended>)
    requires forall id :: id in all ==> id in cb || id in cf
    ensures |blended| == |all|
    ensures forall k :: 0 <= k < |blended| ==> blended[k].tmdbId in all
    ensures forall k :: 0 <= k < |blended| ==> blended[k] == BlendEntry(blended[k].tmdbId, cb, cf, alpha)
    ensures forall id :: id in all ==> id in BlendIds(blended)
    ensures Distinct(BlendIds(blended))
  {
    blended := [];
    var remaining := all;
    while remaining != {}
      invariant remaining <= all
      invariant |blended| + |remaining| == |all|
      invariant forall k :: 0 <= k < |blended| ==> blended[k].tmdbId in all && blended[k].tmdbId !in remaining
      invariant forall id :: id in all && id !in remaining ==> id in BlendIds(blended)
      invariant forall k :: 0 <= k < |blended| ==> blended[k] == BlendEntry(blended[k].tmdbId, cb, cf, alpha)
      invariant Distinct(BlendIds(blended))
      decreases remaining
    {
      NonEmptyHasElement(remaining);
      var t :| t in remaining;
      var entry := BlendEntry(t, cb, cf, alpha);
      assert BlendIds(blended + [entry]) == BlendIds(blended) + [t];
      blended := blended + [entry];
      remaining := remaining - {t};
    }
  }

  lemma NonEmptyHasElement(s: set<int>)
    requires s != {}
    ensures exists t :: t in s
  {
    if forall t :: t !in s {
      assert false;
    }
  }

  /** The first `n` entries of a sorted list holding one entry per id of
      the union are the `n` best, in order, with distinct ids. */
  lemma TopOfSorted(sorted: seq<Blended>, n: nat, all: set<int>,
                    cb: map<int, real>, cf: map<int, real>, alpha: real)
    requires |sorted| == |all|
    requires forall k :: 0 <= k < |sorted| ==> sorted[k].tmdbId in all
    requires forall id :: id in all ==> id in cb || id in cf
    requires forall k :: 0 <= k < |sorted| ==> sorted[k] == BlendEntry(sorted[k].tmdbId, cb, cf, alpha)
    requires forall id :: id in all ==> exists j :: 0 <= j < |sorted| && sorted[j].tmdbId == id
    requires Distinct(BlendIds(sorted))
    requires forall i, j :: 0 <= i < j < |sorted| ==> sorted[i].score >= sorted[j].score
    ensures IsTopBlend(Take(sorted, n), all, cb, cf, alpha, n)
  {
    var out := Take(sorted, n);
    assert forall i :: 0 <= i < |out| ==> out[i] == sorted[i];
    assert forall i :: 0 <= i < |out| ==> BlendIds(out)[i] == BlendIds(sorted)[i];
    forall id, i | id in all && id !in BlendIds(out) && 0 <= i < |out|
      ensures BlendEntry(id, cb, cf, alpha).score <= out[i].score
    {
      var j :| 0 <= j < |sorted| && sorted[j].tmdbId == id;
    }
  }

  /** What the loop built survives the sort: the sorted list holds the same
      entries, one per id of the union, with distinct ids. */
  lemma PermutationKeepsEntries(blended: seq<Blended>, sorted: seq<Blended>, all: set<int>,
                                cb: map<int, real>, cf: map<int, real>, alpha: real)
    requires multiset(sorted) == multiset(blended)
    requires |blended| == |all|
    requires forall k :: 0 <= k < |blended| ==> blended[k].tmdbId in all
    requires forall id :: id in all ==> id in BlendIds(blended)
    requires forall k :: 0 <= k < |blended| ==> (blended[k].tmdbId in cb || blended[k].tmdbId in cf) && blended[k] == BlendEntry(blended[k].tmdbId, cb, cf, alpha)
    requires Distinct(BlendIds(blended))
    ensures |sorted| == |all|
    ensures forall k :: 0 <= k < |sorted| ==> sorted[k].tmdbId in all && sorted[k] == BlendEntry(sorted[k].tmdbId, cb, cf, alpha)
    ensures forall id :: id in all ==> exists j :: 0 <= j < |sorted| && sorted[j].tmdbId == id
    ensures Distinct(BlendIds(sorted))
  {
    assert |sorted| == |multiset(sorted)| == |multiset(blended)| == |blended|;
    forall k | 0 <= k < |sorted|
      ensures sorted[k].tmdbId in all && sorted[k] == BlendEntry(sorted[k].tmdbId, cb, cf, alpha)
    {
      assert sorted[k] in multiset(blended);
      var m :| 0 <= m < |blended| && blended[m] == sorted[k];
    }
    forall id | id in all ensures exists j :: 0 <= j < |sorted| && sorted[j].tmdbId == id {
      var m :| 0 <= m < |blended| && BlendIds(blended)[m] == id;
      assert blended[m] in multiset(sorted);
      var j :| 0 <= j < |sorted| && sorted[j] == blended[m];
      assert sorted[j].tmdbId == id;
    }
    // Entries equal on their id are equal, so a repeated id in the sorted
    // list would be an entry that occurs twice there but once in blended.
    forall a, b | 0 <= a < b < |sorted| ensures BlendIds(sorted)[a] != BlendIds(sorted)[b] {
      if sorted[a].tmdbId == sorted[b].tmdbId {
        assert sorted[a] == sorted[b];
        EntryOccursOnce(blended, sorted[a]);
        TwiceInSeq(sorted, a, b);
        assert false;
      }
    }
  }

  /** In a list with distinct ids an entry occurs at most once. */
  lemma {:induction false} EntryOccursOnce(s: seq<Blended>, x: Blended)
    requires Distinct(BlendIds(s))
    ensures multiset(s)[x] <= 1
  {
    if |s| > 0 {
      var t := s[1..];
      assert s == [s[0]] + t;
      assert Distinct(BlendIds(t)) by {
        forall a, b | 0 <= a < b < |t| ensures BlendIds(t)[a] != BlendIds(t)[b] {
          assert BlendIds(s)[a + 1] != BlendIds(s)[b + 1];
        }
      }
      EntryOccursOnce(t, x);
      if s[0] == x {
        assert x !in t by {
          forall k | 0 <= k < |t| ensures t[k] != x {
            assert BlendIds(s)[0] != BlendIds(s)[k + 1];
          }
        }
      }
    }
  }

  /** An entry at two positions occurs at least twice. */
  lemma TwiceInSeq(s: seq<Blended>, a: nat, b: nat)
    requires a < b < |s| && s[a] == s[b]
    ensures multiset(s)[s[a]] >= 2
  {
    assert s == s[..a] + [s[a]] + s[a + 1..b] + [s[b]] + s[b + 1..];
  }
}
