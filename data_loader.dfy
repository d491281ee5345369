/** The bridge between MovieLens ids and TMDB ids, built from the rows of
    the MovieLens links table. */
module DataLoader {
  import opened Common

  /** A row of the links table as read; a missing TMDB id is `None`. */
  datatype LinkRow = LinkRow(movieId: int, imdbId: int, tmdbId: Option<int>)

  /** A row that survived the missing-value filter. */
  datatype Link = Link(movieId: int, imdbId: int, tmdbId: int)

  function ValidLink(row: LinkRow): Option<Link>
  {
    match row.tmdbId
    case None => None
    case Some(t) => Some(Link(row.movieId, row.imdbId, t))
  }

  /** `load_links` after reading the table: rows without a TMDB id are
      dropped; the others keep their columns and their order. */
  function LoadLinks(rows: seq<LinkRow>): (links: seq<Link>)
    ensures |links| <= |rows|
  {
    FilterMap(rows, ValidLink)
  }

  /** Every link comes from a row with the same ids, rows with a TMDB id are
      all kept, and the kept rows appear in table order. */
  lemma LoadLinksKeepsExactlyMapped(rows: seq<LinkRow>)
    ensures var links := LoadLinks(rows);
      var idx := Kept(rows, ValidLink);
      && (forall k :: 0 <= k < |links| ==>
            (rows[idx[k]].tmdbId == Some(links[k].tmdbId) && rows[idx[k]].movieId == links[k].movieId &&
             rows[idx[k]].imdbId == links[k].imdbId))
      && (forall k, l :: 0 <= k < l < |links| ==> idx[k] < idx[l])
      && (forall j :: 0 <= j < |rows| && rows[j].tmdbId.Some? ==> j in idx)
  {
    var links := LoadLinks(rows);
    var idx := Kept(rows, ValidLink);
    KeptLayout(rows, ValidLink);
    forall k | 0 <= k < |links|
      ensures rows[idx[k]].tmdbId == Some(links[k].tmdbId)
        && rows[idx[k]].movieId == links[k].movieId && rows[idx[k]].imdbId == links[k].imdbId
    {
      assert ValidLink(rows[idx[k]]) == Some(links[k]);
    }
    forall j | 0 <= j < |rows| && rows[j].tmdbId.Some? ensures j in idx {
      assert ValidLink(rows[j]).Some?;
    }
  }

  /** Loading two tables one after the other is loading their concatenation. */
  lemma LoadLinksConcat(a: seq<LinkRow>, b: seq<LinkRow>)
    ensures LoadLinks(a + b) == LoadLinks(a) + LoadLinks(b)
  {
    FilterMapConcat(a, b, ValidLink);
  }

  function MovieIds(links: seq<Link>): (ids: seq<int>)
    ensures |ids| == |links| && forall i :: 0 <= i < |links| ==> ids[i] == links[i].movieId
  {
    seq(|links|, i requires 0 <= i < |links| => links[i].movieId)
  }

  function TmdbIds(links: seq<Link>): (ids: seq<int>)
    ensures |ids| == |links| && forall i :: 0 <= i < |links| ==> ids[i] == links[i].tmdbId
  {
    seq(|links|, i requires 0 <= i < |links| => links[i].tmdbId)
  }

  /** `build_mapping`: `ml_to_tmdb` and `tmdb_to_ml` built with `dict(zip(..))`,
      each defined exactly on the ids of its key column. */
  function BuildMapping(links: seq<Link>): (maps: (map<int, int>, map<int, int>))
    ensures forall m :: m in maps.0 <==> exists i :: 0 <= i < |links| && links[i].movieId == m
    ensures forall t :: t in maps.1 <==> exists i :: 0 <= i < |links| && links[i].tmdbId == t
  {
    var mlIds, tmdbIds := MovieIds(links), TmdbIds(links);
    var mlToTmdb, tmdbToMl := ZipMap(mlIds, tmdbIds), ZipMap(tmdbIds, mlIds);
    forall m ensures m in mlToTmdb <==> exists i :: 0 <= i < |links| && links[i].movieId == m {
      if m in mlToTmdb {
        assert m in mlIds;
      }
    }
    forall t ensures t in tmdbToMl <==> exists i :: 0 <= i < |links| && links[i].tmdbId == t {
      if t in tmdbToMl {
        assert t in tmdbIds;
      }
    }
    (mlToTmdb, tmdbToMl)
  }

  /** `ml_to_tmdb[m]` is the TMDB id of the last row of movie `m`: it comes
      from a row of `m`, and a row of `m` with another TMDB id is followed by
      a later row of `m`. */
  lemma MovieToTmdbLastRowWins(links: seq<Link>, m: int, i: nat)
    requires m in BuildMapping(links).0 && i < |links| && links[i].movieId == m
    ensures exists j :: 0 <= j < |links| && links[j].movieId == m && links[j].tmdbId == BuildMapping(links).0[m]
    ensures links[i].tmdbId != BuildMapping(links).0[m] ==> exists j :: i < j < |links| && links[j].movieId == m
  {
    var mlIds := MovieIds(links);
    var j := LastIndexOf(mlIds, m);
    assert links[j].movieId == m && links[j].tmdbId == BuildMapping(links).0[m];
    assert j >= i;
  }

  /** `tmdb_to_ml[t]` is the MovieLens id of the last row of TMDB id `t`. */
  lemma TmdbToMovieLastRowWins(links: seq<Link>, t: int, i: nat)
    requires t in BuildMapping(links).1 && i < |links| && links[i].tmdbId == t
    ensures exists j :: 0 <= j < |links| && links[j].tmdbId == t && links[j].movieId == BuildMapping(links).1[t]
    ensures links[i].movieId != BuildMapping(links).1[t] ==> exists j :: i < j < |links| && links[j].tmdbId == t
  {
    var tmdbIds := TmdbIds(links);
    var j := LastIndexOf(tmdbIds, t);
    assert links[j].tmdbId == t && links[j].movieId == BuildMapping(links).1[t];
    assert j >= i;
  }

  /** With no id repeated in either column, the two maps are inverse to
      each other and agree with every row. */
  lemma MappingInverse(links: seq<Link>)
    requires Distinct(MovieIds(links)) && Distinct(TmdbIds(links))
    ensures var (mlToTmdb, tmdbToMl) := BuildMapping(links);
      && (forall i :: 0 <= i < |links| ==>
            (mlToTmdb[links[i].movieId] == links[i].tmdbId && tmdbToMl[links[i].tmdbId] == links[i].movieId))
      && (forall m :: m in mlToTmdb ==> mlToTmdb[m] in tmdbToMl && tmdbToMl[mlToTmdb[m]] == m)
      && (forall t :: t in tmdbToMl ==> tmdbToMl[t] in mlToTmdb && mlToTmdb[tmdbToMl[t]] == t)
  {
    var mlIds, tmdbIds := MovieIds(links), TmdbIds(links);
    var (mlToTmdb, tmdbToMl) := BuildMapping(links);
    forall i | 0 <= i < |links|
      ensures mlToTmdb[links[i].movieId] == links[i].tmdbId && tmdbToMl[links[i].tmdbId] == links[i].movieId
    {
      ZipMapDistinct(mlIds, tmdbIds, i);
      ZipMapDistinct(tmdbIds, mlIds, i);
    }
    forall m | m in mlToTmdb ensures mlToTmdb[m] in tmdbToMl && tmdbToMl[mlToTmdb[m]] == m {
      var i :| 0 <= i < |links| && links[i].movieId == m;
    }
    forall t | t in tmdbToMl ensures tmdbToMl[t] in mlToTmdb && mlToTmdb[tmdbToMl[t]] == t {
      var i :| 0 <= i < |links| && links[i].tmdbId == t;
    }
  }

  /** Two MovieLens movies linked to one TMDB id: the reverse map keeps the
      later one, so the round trip from the earlier movie does not return. */
  lemma SharedTmdbIdBreaksRoundTrip()
    ensures var (mlToTmdb, tmdbToMl) := BuildMapping([Link(1, 11, 500), Link(2, 22, 500)]);
      mlToTmdb[1] == 500 && tmdbToMl[500] == 2
  {
    var links := [Link(1, 11, 500), Link(2, 22, 500)];
    assert MovieIds(links) == [1, 2] && TmdbIds(links) == [500, 500];
  }
}
