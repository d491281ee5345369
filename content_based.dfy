/** "Similar movies" by content: the corpus is a list of TMDB ids, one per
    row of a TF-IDF matrix; a query's cosine scores against every row are
    ranked and the rows after the top-ranked one are returned. */
module ContentBased {
  import opened Common

  /** The records for `order[1:n+1]`: the corpus id of each selected row and
      its score. */
  function SimilarRows(tmdbIds: seq<int>, scores: seq<real>, order: seq<nat>, n: nat): (r: seq<Rec>)
    requires |scores| == |tmdbIds| && IsArgsortDesc(order, scores)
    ensures |r| == if |tmdbIds| == 0 then 0 else Min(n, |tmdbIds| - 1)
    ensures NonIncreasing(r)
  {
    var rows := SelectRows(order, n);
    assert forall k :: 0 <= k < |rows| ==> rows[k] == order[k + 1] && rows[k] < |tmdbIds|;
    var r := seq(|rows|, k requires 0 <= k < |rows| => Rec(tmdbIds[rows[k]], scores[rows[k]]));
    assert NonIncreasing(r) by {
      forall k, l | 0 <= k < l < |r| ensures r[k].score >= r[l].score {
        assert r[k].score == scores[order[k + 1]] && r[l].score == scores[order[l + 1]];
      }
    }
    r
  }

  /** The result is a top-`n` list: each record is a distinct row other
      than the top-ranked one, and no row left out (other than the top-ranked
      one) scores higher than a row kept. Rows scoring zero are not dropped. */
  lemma SimilarRowsTopN(tmdbIds: seq<int>, scores: seq<real>, order: seq<nat>, n: nat)
    requires |scores| == |tmdbIds| > 0 && IsArgsortDesc(order, scores)
    ensures var r := SimilarRows(tmdbIds, scores, order, n);
      var rows := SelectRows(order, n);
      && |rows| == |r|
      && Distinct(rows)
      && order[0] !in rows
      && (forall k :: 0 <= k < |r| ==> rows[k] < |tmdbIds| && r[k] == Rec(tmdbIds[rows[k]], scores[rows[k]]))
      && (forall j, k :: 0 <= j < |tmdbIds| && j != order[0] && j !in rows && 0 <= k < |r| ==> scores[j] <= r[k].score)
  {
    var r := SimilarRows(tmdbIds, scores, order, n);
    var rows := SelectRows(order, n);
    SelectRowsRanked(order, scores, n);
    forall j, k | 0 <= j < |tmdbIds| && j != order[0] && j !in rows && 0 <= k < |r|
      ensures scores[j] <= r[k].score
    {
      assert j in order;
      var p :| 0 <= p < |order| && order[p] == j;
      assert p != 0;
      if p <= |rows| {
        assert false;
      }
      assert rows[k] == order[k + 1];
    }
  }

  /** With no repeated id in the corpus, no id is recommended twice. */
  lemma SimilarRowsDistinct(tmdbIds: seq<int>, scores: seq<real>, order: seq<nat>, n: nat)
    requires |scores| == |tmdbIds| && IsArgsortDesc(order, scores) && Distinct(tmdbIds)
    ensures Distinct(Ids(SimilarRows(tmdbIds, scores, order, n)))
  {
    var r := SimilarRows(tmdbIds, scores, order, n);
    var ids := Ids(r);
    forall k, l | 0 <= k < l < |ids| ensures ids[k] != ids[l] {
      assert ids[k] == tmdbIds[order[k + 1]] && ids[l] == tmdbIds[order[l + 1]];
      var a, b := order[k + 1], order[l + 1];
      assert a != b;
      if a < b {
        assert tmdbIds[a] != tmdbIds[b];
      } else {
        assert tmdbIds[b] != tmdbIds[a];
      }
    }
  }

  /** When the query row scores strictly higher than every other row (its
      self-similarity is the unique maximum), the query itself is left out. */
  lemma QueryExcludedWhenUniqueTop(tmdbIds: seq<int>, scores: seq<real>, order: seq<nat>, n: nat, q: nat)
    requires |scores| == |tmdbIds| && IsArgsortDesc(order, scores) && Distinct(tmdbIds)
    requires q < |tmdbIds|
    requires forall j :: 0 <= j < |scores| && j != q ==> scores[j] < scores[q]
    ensures order[0] == q
    ensures tmdbIds[q] !in Ids(SimilarRows(tmdbIds, scores, order, n))
  {
    assert q in order;
    var p :| 0 <= p < |order| && order[p] == q;
    var top, own := scores[order[0]], scores[q];
    assert top >= own;
    var r := SimilarRows(tmdbIds, scores, order, n);
    var rows := SelectRows(order, n);
    SelectRowsRanked(order, scores, n);
    forall k | 0 <= k < |r| ensures r[k].tmdbId != tmdbIds[q] {
      assert r[k].tmdbId == tmdbIds[rows[k]] && rows[k] != q;
    }
  }

  /** When the query ties with another row, the ranking may put the other
      row first; the query is then returned as similar to itself. */
  lemma TieMayReturnQuery()
    ensures IsArgsortDesc([1, 0], [1.0, 1.0])
    ensures SimilarRows([10, 20], [1.0, 1.0], [1, 0], 5) == [Rec(10, 1.0)]
  {
    var order: seq<nat> := [1, 0];
    assert order[0] == 1 && order[1] == 0;
    assert SelectRows(order, 5) == [0];
  }

  /** The content-based model. Before `Load` it answers every query with an
      empty list. */
  class ContentBasedModel {
    var loaded: bool
    var tmdbIds: seq<int>
    var tmdbIdToIdx: map<int, nat>

    ghost predicate Valid()
      reads this
    {
      tmdbIdToIdx == IndexOf(tmdbIds)
    }

    constructor()
      ensures Valid() && !loaded && tmdbIds == []
    {
      loaded := false;
      tmdbIds := [];
      tmdbIdToIdx := map[];
    }

    /** Installs the corpus ids (the matrix itself is not modelled) and
        builds the id-to-row map. */
    method Load(ids: seq<int>)
      modifies this
      ensures Valid() && loaded && tmdbIds == ids
    {
      loaded := true;
      tmdbIds := ids;
      tmdbIdToIdx := IndexOf(ids);
    }

    /** `get_similar`: `scores` are the query row's cosine similarities to
        every row, `order` their descending ranking. */
    function GetSimilar(tmdbId: int, n: nat, scores: seq<real>, order: seq<nat>): (r: seq<Rec>)
      reads this
      requires Valid()
      requires loaded && tmdbId in tmdbIds ==> |scores| == |tmdbIds| && IsArgsortDesc(order, scores)
      ensures !loaded || tmdbId !in tmdbIds ==> r == []
      ensures loaded && tmdbId in tmdbIds ==> |r| == Min(n, |tmdbIds| - 1)
      ensures loaded && tmdbId in tmdbIds ==> r == SimilarRows(tmdbIds, scores, order, n)
    {
      if !loaded then []
      else if tmdbId !in tmdbIdToIdx then []
      else SimilarRows(tmdbIds, scores, order, n)
    }
  }
}
