/** The orchestrator behind the two recommendation rails of a movie page:
    "Similar Movies" from the content model and "Viewers Also Liked" from
    the collaborative model. Each rail is hidden when its top score is
    below the rail's confidence threshold; the surviving ids are looked up
    once, and recommendations without metadata are dropped. */
module Similar {
  import opened Common
  import opened ContentBased
  import opened Collaborative

  /** The confidence thresholds of the two rails. */
  const CbMinScore: real := 0.10
  const CfMinScore: real := 0.15

  /** What `_fetch_tmdb_metadata` keeps for one movie. */
  datatype Metadata = Metadata(
    id: int,
    title: string,
    genres: seq<string>,
    rating: real,
    runtime: int,
    releaseYear: string,
    overview: string,
    posterUrl: Option<string>)

  /** A rail entry: the movie's metadata plus the recommendation's score and
      the rail's `rec_type`. */
  datatype Enriched = Enriched(meta: Metadata, score: real, recType: string)

  /** The answer of `get_recommendations`. */
  datatype Response =
    | Error(message: string)
    | Recommendations(movieId: int, similarMovies: seq<Enriched>, viewersAlsoLiked: seq<Enriched>)

  /** The confidence gate: a list whose first score is below the threshold
      is hidden entirely; any other list passes unchanged. */
  function Gate(recs: seq<Rec>, threshold: real): (g: seq<Rec>)
    ensures g == [] || g == recs
    ensures |recs| > 0 && recs[0].score < threshold ==> g == []
    ensures (|recs| == 0 || recs[0].score >= threshold) ==> g == recs
  {
    if |recs| > 0 && recs[0].score < threshold then [] else recs
  }

  /** Gating twice is gating once. */
  lemma GateIdempotent(recs: seq<Rec>, threshold: real)
    ensures Gate(Gate(recs, threshold), threshold) == Gate(recs, threshold)
  {
  }

  /** Of a non-increasing list, the gate keeps exactly the lists whose every
      score reaches the threshold — the top score is the one that matters. */
  lemma GateOnRanked(recs: seq<Rec>, threshold: real)
    requires NonIncreasing(recs)
    ensures Gate(recs, threshold) == recs <==> |recs| == 0 || recs[0].score >= threshold
    ensures Gate(recs, threshold) == recs && |recs| > 0 ==> forall k :: 0 <= k < |recs| ==> recs[k].score <= recs[0].score
  {
    if |recs| > 0 {
      forall k | 0 < k < |recs| ensures recs[k].score <= recs[0].score {
        assert recs[0].score >= recs[k].score;
      }
    }
  }

  /** The ids the orchestrator asks metadata for: every id of either gated
      list, each once. */
  function RequestedIds(cbRecs: seq<Rec>, cfRecs: seq<Rec>): (ids: set<int>)
    ensures forall t :: t in ids <==> t in Ids(cbRecs) || t in Ids(cfRecs)
  {
    var all := cbRecs + cfRecs;
    var ids := set i | 0 <= i < |all| :: all[i].tmdbId;
    assert forall i :: 0 <= i < |cbRecs| ==> all[i] == cbRecs[i];
    assert forall i :: 0 <= i < |cfRecs| ==> all[|cbRecs| + i] == cfRecs[i];
    assert forall t :: t in Ids(cbRecs) ==> exists i :: 0 <= i < |cbRecs| && cbRecs[i].tmdbId == t;
    assert forall t :: t in Ids(cfRecs) ==> exists i :: 0 <= i < |cfRecs| && cfRecs[i].tmdbId == t;
    ids
  }

  /** What one recommendation contributes to its rail: its metadata with its
      score and the rail's type, or nothing when no metadata came back. */
  function Attach(metadata: map<int, Metadata>, recType: string): (f: Rec -> Option<Enriched>)
    ensures forall r :: f(r).Some? <==> r.tmdbId in metadata
    ensures forall r :: f(r).Some? ==>
      f(r).value.meta == metadata[r.tmdbId] && f(r).value.score == r.score && f(r).value.recType == recType
  {
    (r: Rec) => if r.tmdbId in metadata then Some(Enriched(metadata[r.tmdbId], r.score, recType)) else None
  }

  /** The response for the raw lists of the two models; `fetch` stands for
      the metadata lookup and is applied once, to the requested ids. */
  function Rails(tmdbId: int, cbRaw: seq<Rec>, cfRaw: seq<Rec>, fetch: set<int> -> map<int, Metadata>): (resp: Response)
    ensures resp.Recommendations? && resp.movieId == tmdbId
    ensures |resp.similarMovies| <= |Gate(cbRaw, CbMinScore)| && |resp.viewersAlsoLiked| <= |Gate(cfRaw, CfMinScore)|
  {
    var cbRecs, cfRecs := Gate(cbRaw, CbMinScore), Gate(cfRaw, CfMinScore);
    var metadata := fetch(RequestedIds(cbRecs, cfRecs));
    Recommendations(tmdbId, FilterMap(cbRecs, Attach(metadata, "similar")), FilterMap(cfRecs, Attach(metadata, "also_liked")))
  }

  /** A rail is the order-preserving subsequence of its gated list whose ids
      have metadata: each entry carries its recommendation's metadata, score
      and the rail's type, and no recommendation with metadata is left out. */
  lemma RailInOrder(recs: seq<Rec>, metadata: map<int, Metadata>, recType: string)
    ensures var rail := FilterMap(recs, Attach(metadata, recType));
      var idx := Kept(recs, Attach(metadata, recType));
      && (forall k :: 0 <= k < |rail| ==>
            (recs[idx[k]].tmdbId in metadata &&
             rail[k] == Enriched(metadata[recs[idx[k]].tmdbId], recs[idx[k]].score, recType)))
      && (forall k, l :: 0 <= k < l < |rail| ==> idx[k] < idx[l])
      && (forall j :: 0 <= j < |recs| && recs[j].tmdbId in metadata ==> j in idx)
  {
    var f := Attach(metadata, recType);
    var rail := FilterMap(recs, f);
    var idx := Kept(recs, f);
    KeptLayout(recs, f);
    forall k | 0 <= k < |rail|
      ensures recs[idx[k]].tmdbId in metadata && rail[k] == Enriched(metadata[recs[idx[k]].tmdbId], recs[idx[k]].score, recType)
    {
      assert f(recs[idx[k]]) == Some(rail[k]);
    }
    forall j | 0 <= j < |recs| && recs[j].tmdbId in metadata ensures j in idx {
      assert f(recs[j]).Some?;
    }
  }

  /** A rail whose top score is below its threshold is empty whatever
      metadata comes back, and its ids are not even requested. */
  lemma HiddenRailIsEmpty(tmdbId: int, cbRaw: seq<Rec>, cfRaw: seq<Rec>, fetch: set<int> -> map<int, Metadata>)
    ensures var resp := Rails(tmdbId, cbRaw, cfRaw, fetch);
      && (|cbRaw| > 0 && cbRaw[0].score < CbMinScore ==>
            resp.similarMovies == [] && RequestedIds(Gate(cbRaw, CbMinScore), Gate(cfRaw, CfMinScore)) == RequestedIds([], Gate(cfRaw, CfMinScore)))
      && (|cfRaw| > 0 && cfRaw[0].score < CfMinScore ==>
            resp.viewersAlsoLiked == [] && RequestedIds(Gate(cbRaw, CbMinScore), Gate(cfRaw, CfMinScore)) == RequestedIds(Gate(cbRaw, CbMinScore), []))
  {
  }

  /** When every recommendation of a list has metadata, the rail keeps all
      of them, in order, with their scores. */
  lemma {:induction false} RailComplete(recs: seq<Rec>, metadata: map<int, Metadata>, recType: string)
    requires forall k :: 0 <= k < |recs| ==> recs[k].tmdbId in metadata
    ensures var rail := FilterMap(recs, Attach(metadata, recType));
      |rail| == |recs| &&
      forall k :: 0 <= k < |recs| ==> rail[k] == Enriched(metadata[recs[k].tmdbId], recs[k].score, recType)
    decreases |recs|
  {
    if |recs| > 0 {
      var init := recs[..|recs| - 1];
      RailComplete(init, metadata, recType);
    }
  }

  /** The orchestrator. Before `Load` every request is answered with an
      error. */
  class SimilarMovies {
    var loaded: bool
    var cb: ContentBasedModel
    var cf: CollaborativeModel

    /** The content model keeps its index, and the orchestrator counts as
        loaded only once both models are. */
    ghost predicate Valid()
      reads this, cb, cf
    {
      && cb.Valid()
      && (loaded ==> cb.loaded && cf.loaded)
    }

    constructor()
      ensures Valid() && !loaded && fresh(cb) && fresh(cf)
      ensures !cb.loaded && !cf.loaded
    {
      cb := new ContentBasedModel();
      cf := new CollaborativeModel();
      loaded := false;
    }

    /** Loads both models (their trained data are the parameters) and sets
        the flag. */
    method Load(ids: seq<int>, m2i: map<int, nat>, i2m: map<nat, int>, ml2t: map<int, int>, t2ml: map<int, int>)
      requires Valid()
      modifies this, cb, cf
      ensures Valid() && loaded && cb == old(cb) && cf == old(cf)
      ensures cb.loaded && cb.tmdbIds == ids
      ensures cf.loaded && cf.movieToIdx == m2i && cf.idxToMovie == i2m && cf.mlToTmdb == ml2t && cf.tmdbToMl == t2ml
    {
      cb.Load(ids);
      cf.Load(m2i, i2m, ml2t, t2ml);
      loaded := true;
    }

    /** `get_recommendations`: `cbScores`/`cbOrder` and `cfSims`/`cfOrder`
        are the two models' similarity rows and their rankings, `fetch` the
        metadata lookup. */
    method GetRecommendations(tmdbId: int, n: nat, cbScores: seq<real>, cbOrder: seq<nat>, cfSims: seq<real>,
                              cfOrder: seq<nat>, fetch: set<int> -> map<int, Metadata>)
      returns (resp: Response)
      requires Valid()
      requires cb.loaded && tmdbId in cb.tmdbIds ==> |cbScores| == |cb.tmdbIds| && IsArgsortDesc(cbOrder, cbScores)
      requires cf.Known(tmdbId) ==> IsArgsortDesc(cfOrder, cfSims) && forall i :: 0 <= i < |cfSims| ==> i in cf.idxToMovie
      ensures !loaded ==> resp == Error("Models not loaded")
      ensures loaded ==> resp == Rails(tmdbId, cb.GetSimilar(tmdbId, n, cbScores, cbOrder),
        if cf.Known(tmdbId) then AlsoLikedRows(SelectRows(cfOrder, n), cf.idxToMovie, cf.mlToTmdb, cfSims) else [],
        fetch)
    {
      if !loaded {
        return Error("Models not loaded");
      }
      var cbRaw := cb.GetSimilar(tmdbId, n, cbScores, cbOrder);
      var cfRaw := cf.GetAlsoLiked(tmdbId, n, cfSims, cfOrder);
      resp := AssembleRails(tmdbId, cbRaw, cfRaw, fetch);
    }
  }

  /** The part of `get_recommendations` after both models have answered:
      the confidence gates, the id collection, one metadata lookup and the
      two enrichment loops. */
  method AssembleRails(tmdbId: int, cbRaw: seq<Rec>, cfRaw: seq<Rec>, fetch: set<int> -> map<int, Metadata>)
    returns (resp: Response)
    ensures resp == Rails(tmdbId, cbRaw, cfRaw, fetch)
  {
    var cbRecs, cfRecs := cbRaw, cfRaw;
    if |cbRecs| > 0 && cbRecs[0].score < CbMinScore {
      cbRecs := [];
    }
    if |cfRecs| > 0 && cfRecs[0].score < CfMinScore {
      cfRecs := [];
    }
    var allIds := CollectIds(cbRecs, cfRecs);
    var metadata := fetch(allIds);
    var similarMovies := EnrichRail(cbRecs, metadata, "similar");
    var viewersAlsoLiked := EnrichRail(cfRecs, metadata, "also_liked");
    resp := Recommendations(tmdbId, similarMovies, viewersAlsoLiked);
  }

  /** The loop that fills `all_ids` from `cb_raw + cf_raw`. */
  method CollectIds(cbRecs: seq<Rec>, cfRecs: seq<Rec>) returns (ids: set<int>)
    ensures ids == RequestedIds(cbRecs, cfRecs)
  {
    var recs := cbRecs + cfRecs;
    ids := {};
    var i := 0;
    while i < |recs|
      invariant 0 <= i <= |recs|
      invariant forall t :: t in ids <==> exists j :: 0 <= j < i && recs[j].tmdbId == t
    {
      ids := ids + {recs[i].tmdbId};
      i := i + 1;
    }
    IdsConcat(cbRecs, cfRecs);
    assert forall t :: t in Ids(recs) ==> exists j :: 0 <= j < |recs| && recs[j].tmdbId == t;
    forall t ensures t in ids <==> t in RequestedIds(cbRecs, cfRecs) {
      assert t in Ids(cbRecs) + Ids(cfRecs) <==> t in Ids(cbRecs) || t in Ids(cfRecs);
    }
  }

  /** The loop that fills one rail. */
  method EnrichRail(recs: seq<Rec>, metadata: map<int, Metadata>, recType: string) returns (rail: seq<Enriched>)
    ensures rail == FilterMap(recs, Attach(metadata, recType))
  {
    ghost var f := Attach(metadata, recType);
    rail := [];
    var i := 0;
    while i < |recs|
      invariant 0 <= i <= |recs|
      invariant rail == FilterMap(recs[..i], f)
    {
      var rec := recs[i];
      if rec.tmdbId in metadata {
        rail := rail + [Enriched(metadata[rec.tmdbId], rec.score, recType)];
      }
      FilterMapAppend(recs[..i], rec, f);
      assert recs[..i + 1] == recs[..i] + [rec];
      i := i + 1;
    }
    assert recs[..i] == recs;
  }
}
