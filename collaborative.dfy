/** "Viewers also liked": a movie's latent-factor row is compared with
    every other row; the next rows in descending similarity are translated
    back from MovieLens ids to TMDB ids, and rows without a TMDB id are
    dropped rather than replaced. */
module Collaborative {
  import opened Common

  /** What one selected factor row contributes: `ml_to_tmdb.get(idx_to_movie[i])`
      when it is truthy (present and non-zero), paired with the row's score.
      The first two conditions always hold for the rows `GetAlsoLiked` sees. */
  function Translate(idxToMovie: map<nat, int>, mlToTmdb: map<int, int>, sims: seq<real>): nat -> Option<Rec>
  {
    i =>
      if i in idxToMovie && i < |sims| && idxToMovie[i] in mlToTmdb && mlToTmdb[idxToMovie[i]] != 0
      then Some(Rec(mlToTmdb[idxToMovie[i]], sims[i]))
      else None
  }

  /** The recommendations built from the selected rows. */
  function AlsoLikedRows(rows: seq<nat>, idxToMovie: map<nat, int>, mlToTmdb: map<int, int>, sims: seq<real>): (recs: seq<Rec>)
    ensures |recs| <= |rows|
  {
    FilterMap(rows, Translate(idxToMovie, mlToTmdb, sims))
  }

  /** The recommendations are in rank order: at most `n` of them, and
      scores never increase. */
  lemma AlsoLikedRanked(order: seq<nat>, sims: seq<real>, n: nat, idxToMovie: map<nat, int>, mlToTmdb: map<int, int>)
    requires IsArgsortDesc(order, sims)
    ensures var r := AlsoLikedRows(SelectRows(order, n), idxToMovie, mlToTmdb, sims);
      |r| <= n && (|sims| > 0 ==> |r| < |sims|) && NonIncreasing(r)
  {
    var rows := SelectRows(order, n);
    var f := Translate(idxToMovie, mlToTmdb, sims);
    var r := AlsoLikedRows(rows, idxToMovie, mlToTmdb, sims);
    SelectRowsRanked(order, sims, n);
    var idx := Kept(rows, f);
    KeptLayout(rows, f);
    forall k, l | 0 <= k < l < |r| ensures r[k].score >= r[l].score {
      var a, b := rows[idx[k]], rows[idx[l]];
      assert f(a) == Some(r[k]) && f(b) == Some(r[l]);
      assert r[k].score == sims[a] && r[l].score == sims[b];
      assert idx[k] < idx[l];
    }
  }

  /** Each recommendation is the non-zero TMDB id of a selected row's movie,
      with that row's score. */
  lemma AlsoLikedSound(rows: seq<nat>, idxToMovie: map<nat, int>, mlToTmdb: map<int, int>, sims: seq<real>, k: nat)
    requires k < |AlsoLikedRows(rows, idxToMovie, mlToTmdb, sims)|
    ensures var rec := AlsoLikedRows(rows, idxToMovie, mlToTmdb, sims)[k];
      exists j :: 0 <= j < |rows| && rows[j] in idxToMovie && rows[j] < |sims| && idxToMovie[rows[j]] in mlToTmdb &&
        rec.tmdbId == mlToTmdb[idxToMovie[rows[j]]] != 0 && rec.score == sims[rows[j]]
  {
    var f := Translate(idxToMovie, mlToTmdb, sims);
    var idx := Kept(rows, f);
    KeptLayout(rows, f);
    assert f(rows[idx[k]]).Some?;
  }

  /** Every selected row whose movie has a non-zero TMDB id is recommended. */
  lemma AlsoLikedComplete(rows: seq<nat>, idxToMovie: map<nat, int>, mlToTmdb: map<int, int>, sims: seq<real>, j: nat)
    requires j < |rows| && rows[j] in idxToMovie && rows[j] < |sims|
    requires idxToMovie[rows[j]] in mlToTmdb && mlToTmdb[idxToMovie[rows[j]]] != 0
    ensures Rec(mlToTmdb[idxToMovie[rows[j]]], sims[rows[j]]) in AlsoLikedRows(rows, idxToMovie, mlToTmdb, sims)
  {
    var f := Translate(idxToMovie, mlToTmdb, sims);
    FilterMapMembers(rows, f);
    assert f(rows[j]).Some?;
  }

  /** A row whose movie has no TMDB id, or whose TMDB id is 0, shortens the
      result: here one row is selected and nothing is returned. */
  lemma UnmappedRowIsDropped()
    ensures AlsoLikedRows([1], map[0 := 100, 1 := 200], map[100 := 7], [1.0, 0.5]) == []
  {
    var f := Translate(map[0 := 100, 1 := 200], map[100 := 7], [1.0, 0.5]);
    assert f(1) == None;
    assert [1][..0] == [];
  }

  /** One more selected row extends the recommendations by its translation,
      if it has one. */
  lemma TranslateStep(rows: seq<nat>, k: nat, idxToMovie: map<nat, int>, mlToTmdb: map<int, int>, sims: seq<real>)
    requires k < |rows| && rows[k] in idxToMovie && rows[k] < |sims|
    ensures var m := idxToMovie[rows[k]];
      AlsoLikedRows(rows[..k + 1], idxToMovie, mlToTmdb, sims) == AlsoLikedRows(rows[..k], idxToMovie, mlToTmdb, sims) +
        (if m in mlToTmdb && mlToTmdb[m] != 0 then [Rec(mlToTmdb[m], sims[rows[k]])] else [])
  {
    FilterMapAppend(rows[..k], rows[k], Translate(idxToMovie, mlToTmdb, sims));
    assert rows[..k + 1] == rows[..k] + [rows[k]];
  }

  /** The collaborative model. Before `Load` it answers every query with an
      empty list. */
  class CollaborativeModel {
    var loaded: bool
    var movieToIdx: map<int, nat>
    var idxToMovie: map<nat, int>
    var mlToTmdb: map<int, int>
    var tmdbToMl: map<int, int>

    constructor()
      ensures !loaded && movieToIdx == map[] && idxToMovie == map[] && mlToTmdb == map[] && tmdbToMl == map[]
    {
      loaded := false;
      movieToIdx := map[];
      idxToMovie := map[];
      mlToTmdb := map[];
      tmdbToMl := map[];
    }

    /** Installs the trained index maps and the id bridge (the factor
        matrix itself is not modelled). */
    method Load(m2i: map<int, nat>, i2m: map<nat, int>, ml2t: map<int, int>, t2ml: map<int, int>)
      modifies this
      ensures loaded && movieToIdx == m2i && idxToMovie == i2m && mlToTmdb == ml2t && tmdbToMl == t2ml
    {
      loaded := true;
      movieToIdx := m2i;
      idxToMovie := i2m;
      mlToTmdb := ml2t;
      tmdbToMl := t2ml;
    }

    /** Whether `tmdb_id` reaches a factor row. */
    ghost predicate Known(tmdbId: int)
      reads this
    {
      loaded && tmdbId in tmdbToMl && tmdbToMl[tmdbId] in movieToIdx
    }

    /** `get_also_liked`: `sims` are the movie's cosine similarities to every
        factor row, `order` their descending ranking. */
    method GetAlsoLiked(tmdbId: int, n: nat, sims: seq<real>, order: seq<nat>) returns (results: seq<Rec>)
      requires Known(tmdbId) ==> IsArgsortDesc(order, sims) && forall i :: 0 <= i < |sims| ==> i in idxToMovie
      ensures !Known(tmdbId) ==> results == []
      ensures Known(tmdbId) ==> results == AlsoLikedRows(SelectRows(order, n), idxToMovie, mlToTmdb, sims)
    {
      if !loaded {
        return [];
      }
      if tmdbId !in tmdbToMl {
        return [];
      }
      var mlId := tmdbToMl[tmdbId];
      if mlId !in movieToIdx {
        return [];
      }
      var topIndices := SelectRows(order, n);
      SelectRowsRanked(order, sims, n);
      results := [];
      var k := 0;
      while k < |topIndices|
        invariant 0 <= k <= |topIndices|
        invariant results == AlsoLikedRows(topIndices[..k], idxToMovie, mlToTmdb, sims)
      {
        var i := topIndices[k];
        var recMlId := idxToMovie[i];
        TranslateStep(topIndices, k, idxToMovie, mlToTmdb, sims);
        if recMlId in mlToTmdb && mlToTmdb[recMlId] != 0 {
          results := results + [Rec(mlToTmdb[recMlId], sims[i])];
        }
        k := k + 1;
      }
      assert topIndices[..k] == topIndices;
    }
  }
}
