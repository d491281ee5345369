/** What `rank_movies` does around the language-model call: the candidate
    summaries put into the prompt, and the reconciliation of the model's
    picks with the candidate list, filled up to five from the candidates. */
module Recommender {
  import opened Common
  import opened TmdbClient

  /** How many movies `rank_movies` aims to return. */
  const TopK: nat := 5

  /** How many characters of an overview a summary line keeps. */
  const OverviewLimit: nat := 150

  /** One entry of the model's `picks` answer. */
  datatype Pick = Pick(movieId: int, why: string)

  /** A returned movie record with its added `why` field. */
  datatype Ranked = Ranked(movie: Movie, why: string)

  // ---------------------------------------------------------------------------
  // Candidate summaries

  function ProviderNames(ps: seq<Provider>): (names: seq<string>)
    ensures |names| == |ps| && forall i :: 0 <= i < |ps| ==> names[i] == ps[i].name
  {
    seq(|ps|, i requires 0 <= i < |ps| => ps[i].name)
  }

  /** The ` | Streaming: ...` suffix: present exactly when the record has a
      non-empty providers list, and then naming the first provider first. */
  function StreamingSuffix(m: Movie): (s: string)
    ensures s != "" <==> m.providers.Some? && |m.providers.value| > 0
    ensures s != "" ==> " | Streaming: " + m.providers.value[0].name <= s
  {
    if m.providers.Some? && |m.providers.value| > 0 then
      var names := ProviderNames(m.providers.value);
      var joined := Join(", ", names);
      assert names[0] <= joined;
      assert (" | Streaming: " + joined)[..|" | Streaming: " + names[0]|] == " | Streaming: " + names[0];
      " | Streaming: " + joined
    else ""
  }

  /** One summary line of the prompt. Number formatting is a parameter:
      `showInt` renders the id and the runtime, `showReal` the rating. */
  function Summary(m: Movie, showInt: int -> string, showReal: real -> string): string
  {
    SummaryHead(m, showInt) + SummaryMiddle(m, showInt, showReal) + SummaryTail(m)
  }

  function SummaryHead(m: Movie, showInt: int -> string): string
  {
    "- ID " + showInt(m.id) + ": \"" + m.title + "\" ("
  }

  function SummaryMiddle(m: Movie, showInt: int -> string, showReal: real -> string): string
  {
    m.releaseYear + ") — " + Join(", ", m.genres) + " — Rating: " + showReal(m.rating) + "/10 — "
      + showInt(m.runtime) + " min — "
  }

  function SummaryTail(m: Movie): string
  {
    Take(m.overview, OverviewLimit) + StreamingSuffix(m)
  }

  /** A summary line opens with the id and the quoted title and closes with
      at most 150 characters from the start of the overview, followed by
      the streaming suffix. */
  lemma SummaryLayout(m: Movie, showInt: int -> string, showReal: real -> string)
    ensures var line := Summary(m, showInt, showReal);
      && "- ID " + showInt(m.id) + ": \"" + m.title + "\" (" <= line
      && var tail := Take(m.overview, OverviewLimit) + StreamingSuffix(m);
         |tail| <= |line| && line[|line| - |tail|..] == tail
    ensures |Take(m.overview, OverviewLimit)| <= OverviewLimit && Take(m.overview, OverviewLimit) <= m.overview
  {
    var head, middle, tail := SummaryHead(m, showInt), SummaryMiddle(m, showInt, showReal), SummaryTail(m);
    var line := Summary(m, showInt, showReal);
    assert line == head + (middle + tail);
    assert line[..|head|] == head;
    assert line == (head + middle) + tail;
  }

  function SummaryOf(showInt: int -> string, showReal: real -> string): Movie -> string
  {
    m => Summary(m, showInt, showReal)
  }

  /** There is one summary line per candidate, the line of the candidate
      at the same position. */
  lemma SummariesOnePerCandidate(candidates: seq<Movie>, showInt: int -> string, showReal: real -> string)
    ensures |MapSeq(candidates, SummaryOf(showInt, showReal))| == |candidates|
    ensures forall i :: 0 <= i < |candidates| ==>
      MapSeq(candidates, SummaryOf(showInt, showReal))[i] == Summary(candidates[i], showInt, showReal)
  {
    MapSeqAt(candidates, SummaryOf(showInt, showReal));
  }

  /** The loop that fills `candidate_summaries`. */
  method CandidateSummaries(candidates: seq<Movie>, showInt: int -> string, showReal: real -> string)
    returns (lines: seq<string>)
    ensures lines == MapSeq(candidates, SummaryOf(showInt, showReal))
  {
    lines := [];
    var i := 0;
    while i < |candidates|
      invariant 0 <= i <= |candidates|
      invariant lines == MapSeq(candidates[..i], SummaryOf(showInt, showReal))
    {
      var line := Summary(candidates[i], showInt, showReal);
      assert candidates[..i + 1][..i] == candidates[..i];
      lines := lines + [line];
      i := i + 1;
    }
    assert candidates[..i] == candidates;
  }

  // ---------------------------------------------------------------------------
  // Reconciliation

  function CandidateIds(candidates: seq<Movie>): (ids: seq<int>)
    ensures |ids| == |candidates| && forall i :: 0 <= i < |candidates| ==> ids[i] == candidates[i].id
  {
    seq(|candidates|, i requires 0 <= i < |candidates| => candidates[i].id)
  }

  /** `candidates_by_id`: defined on the candidates' ids; an id held by
      several candidates keeps the last of them. */
  function ById(candidates: seq<Movie>): (byId: map<int, Movie>)
    ensures forall id :: id in byId <==> exists i :: 0 <= i < |candidates| && candidates[i].id == id
    ensures forall id :: id in byId ==> byId[id] in candidates && byId[id].id == id
  {
    var ids := CandidateIds(candidates);
    var m := ZipMap(ids, candidates);
    forall id | id in m ensures m[id] in candidates && m[id].id == id {
      var j := LastIndexOf(ids, id);
      assert m[id] == candidates[j] && ids[j] == id;
    }
    forall id ensures id in m <==> exists i :: 0 <= i < |candidates| && candidates[i].id == id {
      if id in m {
        var j := LastIndexOf(ids, id);
        assert candidates[j].id == id;
      }
      forall i | 0 <= i < |candidates| && candidates[i].id == id ensures id in m {
        assert ids[i] in ids;
      }
    }
    m
  }

  /** What one pick contributes: the candidate it names, with its reason,
      or nothing when it names no candidate. */
  function Resolve(byId: map<int, Movie>): Pick -> Option<Ranked>
  {
    (p: Pick) => if p.movieId in byId then Some(Ranked(byId[p.movieId], p.why)) else None
  }

  /** `ranked` after the picks loop. */
  function ValidPicks(candidates: seq<Movie>, picks: seq<Pick>): seq<Ranked>
  {
    FilterMap(picks, Resolve(ById(candidates)))
  }

  /** `picked_ids` after the picks loop. */
  function PickedIds(byId: map<int, Movie>, picks: seq<Pick>): set<int>
  {
    if |picks| == 0 then {}
    else
      var last := picks[|picks| - 1];
      PickedIds(byId, picks[..|picks| - 1]) + (if last.movieId in byId then {last.movieId} else {})
  }

  /** `picked_ids` holds exactly the ids of the picks that name a candidate. */
  lemma {:induction false} PickedIdsMembers(byId: map<int, Movie>, picks: seq<Pick>)
    ensures forall id :: id in PickedIds(byId, picks) <==> id in byId && exists i :: 0 <= i < |picks| && picks[i].movieId == id
    decreases |picks|
  {
    if |picks| > 0 {
      var init := picks[..|picks| - 1];
      PickedIdsMembers(byId, init);
      assert forall i :: 0 <= i < |init| ==> init[i] == picks[i];
    }
  }

  /** What one candidate contributes to the fallback: itself with an empty
      reason, unless it was picked. */
  function Unpicked(picked: set<int>): Movie -> Option<Ranked>
  {
    (m: Movie) => if m.id !in picked then Some(Ranked(m, "")) else None
  }

  /** Every candidate the fallback may use, in candidate order. */
  function Leftovers(candidates: seq<Movie>, picks: seq<Pick>): seq<Ranked>
  {
    FilterMap(candidates, Unpicked(PickedIds(ById(candidates), picks)))
  }

  /** The result of `rank_movies` for the model's `picks`: the valid picks
      first, then, only when there are fewer than five, the leftovers up to a
      total of five. Many valid picks are not cut down to five. */
  function Reconcile(candidates: seq<Movie>, picks: seq<Pick>): (ranked: seq<Ranked>)
    ensures ValidPicks(candidates, picks) <= ranked
    ensures var valid, rest := ValidPicks(candidates, picks), Leftovers(candidates, picks);
      |ranked| == if |valid| >= TopK then |valid| else Min(TopK, |valid| + |rest|)
    ensures var valid, rest := ValidPicks(candidates, picks), Leftovers(candidates, picks);
      |valid| < TopK && |valid| + |rest| >= TopK ==> |ranked| == TopK
  {
    var valid := ValidPicks(candidates, picks);
    if |valid| < TopK then valid + Take(Leftovers(candidates, picks), TopK - |valid|) else valid
  }

  /** One more pick extends `ranked` by the candidate it names, if any, and
      `picked_ids` by its id. */
  lemma ResolveStep(byId: map<int, Movie>, picks: seq<Pick>, k: nat)
    requires k < |picks|
    ensures FilterMap(picks[..k + 1], Resolve(byId)) == FilterMap(picks[..k], Resolve(byId)) +
      (if picks[k].movieId in byId then [Ranked(byId[picks[k].movieId], picks[k].why)] else [])
    ensures PickedIds(byId, picks[..k + 1]) == PickedIds(byId, picks[..k]) +
      (if picks[k].movieId in byId then {picks[k].movieId} else {})
  {
    FilterMapAppend(picks[..k], picks[k], Resolve(byId));
    assert picks[..k + 1] == picks[..k] + [picks[k]];
    assert picks[..k + 1][..k] == picks[..k];
  }

  /** One more candidate extends the leftovers by itself when it is unpicked. */
  lemma UnpickedStep(candidates: seq<Movie>, picked: set<int>, j: nat)
    requires j < |candidates|
    ensures FilterMap(candidates[..j + 1], Unpicked(picked)) == FilterMap(candidates[..j], Unpicked(picked)) +
      (if candidates[j].id !in picked then [Ranked(candidates[j], "")] else [])
  {
    FilterMapAppend(candidates[..j], candidates[j], Unpicked(picked));
    assert candidates[..j + 1] == candidates[..j] + [candidates[j]];
  }

  /** The picks loop of `rank_movies`: `ranked` and `picked_ids` built
      pick by pick. */
  method ResolvePicks(byId: map<int, Movie>, picks: seq<Pick>) returns (ranked: seq<Ranked>, pickedIds: set<int>)
    ensures ranked == FilterMap(picks, Resolve(byId))
    ensures pickedIds == PickedIds(byId, picks)
  {
    pickedIds := {};
    ranked := [];
    var k := 0;
    while k < |picks|
      invariant 0 <= k <= |picks|
      invariant ranked == FilterMap(picks[..k], Resolve(byId))
      invariant pickedIds == PickedIds(byId, picks[..k])
    {
      var pick := picks[k];
      ResolveStep(byId, picks, k);
      if pick.movieId in byId {
        ranked := ranked + [Ranked(byId[pick.movieId], pick.why)];
        pickedIds := pickedIds + {pick.movieId};
      }
      k := k + 1;
    }
    assert picks[..k] == picks;
  }

  /** The fallback loop of `rank_movies`: unpicked candidates are appended,
      in candidate order, until the list holds five records. */
  method FillUp(ranked0: seq<Ranked>, candidates: seq<Movie>, pickedIds: set<int>) returns (ranked: seq<Ranked>)
    requires |ranked0| < TopK
    ensures ranked == ranked0 + Take(FilterMap(candidates, Unpicked(pickedIds)), TopK - |ranked0|)
  {
    ranked := ranked0;
    var j := 0;
    while j < |candidates|
      invariant 0 <= j <= |candidates|
      invariant ranked == ranked0 + FilterMap(candidates[..j], Unpicked(pickedIds))
      invariant |ranked| < TopK
    {
      var m := candidates[j];
      UnpickedStep(candidates, pickedIds, j);
      if m.id !in pickedIds {
        ranked := ranked + [Ranked(m, "")];
        if |ranked| >= TopK {
          j := j + 1;
          assert ranked == ranked0 + FilterMap(candidates[..j], Unpicked(pickedIds)) && |ranked| == TopK;
          break;
        }
      }
      j := j + 1;
    }
    ghost var fill := FilterMap(candidates[..j], Unpicked(pickedIds));
    assert ranked == ranked0 + fill;
    assert |fill| == TopK - |ranked0| || (j == |candidates| && |fill| < TopK - |ranked0|);
    FilterMapPrefixTake(candidates, j, Unpicked(pickedIds), TopK - |ranked0|);
  }

  /** `rank_movies` after the model has answered with `picks`. */
  method RankMovies(candidates: seq<Movie>, picks: seq<Pick>) returns (ranked: seq<Ranked>)
    ensures ranked == Reconcile(candidates, picks)
  {
    var byId := ById(candidates);
    var pickedIds;
    ranked, pickedIds := ResolvePicks(byId, picks);
    if |ranked| < TopK {
      ranked := FillUp(ranked, candidates, pickedIds);
    }
  }

  // ---------------------------------------------------------------------------
  // Properties

  /** Every returned record is a candidate record: a pick whose id is not a
      candidate's contributes nothing. */
  lemma ReconcileFromCandidates(candidates: seq<Movie>, picks: seq<Pick>)
    ensures forall k :: 0 <= k < |Reconcile(candidates, picks)| ==> Reconcile(candidates, picks)[k].movie in candidates
  {
    var ranked := Reconcile(candidates, picks);
    var valid, rest := ValidPicks(candidates, picks), Leftovers(candidates, picks);
    var byId := ById(candidates);
    FilterMapMembers(picks, Resolve(byId));
    FilterMapMembers(candidates, Unpicked(PickedIds(byId, picks)));
    forall k | 0 <= k < |ranked| ensures ranked[k].movie in candidates {
      if k < |valid| {
        assert ranked[k] == valid[k] && valid[k] in valid;
      } else {
        assert ranked[k] in rest;
      }
    }
  }

  /** The valid picks, in the model's order: each names a candidate and
      carries that pick's reason, and every pick naming a candidate is there,
      repeats included. */
  lemma ValidPicksInOrder(candidates: seq<Movie>, picks: seq<Pick>)
    ensures var valid := ValidPicks(candidates, picks);
      var idx := Kept(picks, Resolve(ById(candidates)));
      && (forall k :: 0 <= k < |valid| ==>
            (valid[k].movie.id == picks[idx[k]].movieId && valid[k].why == picks[idx[k]].why && valid[k].movie in candidates))
      && (forall k, l :: 0 <= k < l < |valid| ==> idx[k] < idx[l])
      && (forall j :: 0 <= j < |picks| && (exists i :: 0 <= i < |candidates| && candidates[i].id == picks[j].movieId) ==> j in idx)
  {
    var byId := ById(candidates);
    var f := Resolve(byId);
    var valid := ValidPicks(candidates, picks);
    var idx := Kept(picks, f);
    KeptLayout(picks, f);
    forall k | 0 <= k < |valid|
      ensures valid[k].movie.id == picks[idx[k]].movieId && valid[k].why == picks[idx[k]].why && valid[k].movie in candidates
    {
      assert f(picks[idx[k]]) == Some(valid[k]);
    }
    forall j | 0 <= j < |picks| && (exists i :: 0 <= i < |candidates| && candidates[i].id == picks[j].movieId)
      ensures j in idx
    {
      assert f(picks[j]).Some?;
    }
  }

  /** The leftovers are unpicked candidates with an empty reason. */
  lemma LeftoversUnpicked(candidates: seq<Movie>, picks: seq<Pick>)
    ensures var picked := PickedIds(ById(candidates), picks);
      forall r :: r in Leftovers(candidates, picks) ==> r.why == "" && r.movie in candidates && r.movie.id !in picked
  {
    FilterMapMembers(candidates, Unpicked(PickedIds(ById(candidates), picks)));
  }

  /** The fallback runs only with fewer than five valid picks, and then
      takes the leftovers from their start, in candidate order. */
  lemma FallbackOnlyWhenShort(candidates: seq<Movie>, picks: seq<Pick>)
    ensures var ranked, valid := Reconcile(candidates, picks), ValidPicks(candidates, picks);
      && (|valid| >= TopK ==> ranked == valid)
      && ranked[|valid|..] <= Leftovers(candidates, picks)
  {
    var ranked, valid := Reconcile(candidates, picks), ValidPicks(candidates, picks);
    assert ranked[|valid|..] == if |valid| < TopK then Take(Leftovers(candidates, picks), TopK - |valid|) else [];
  }

  /** The records after the valid picks are unpicked candidates with an
      empty reason. */
  lemma FallbackEntries(candidates: seq<Movie>, picks: seq<Pick>)
    ensures var ranked, valid := Reconcile(candidates, picks), ValidPicks(candidates, picks);
      var picked := PickedIds(ById(candidates), picks);
      forall k :: |valid| <= k < |ranked| ==>
        ranked[k].why == "" && ranked[k].movie in candidates && ranked[k].movie.id !in picked
  {
    var ranked, valid := Reconcile(candidates, picks), ValidPicks(candidates, picks);
    var rest := Leftovers(candidates, picks);
    LeftoversUnpicked(candidates, picks);
    forall k | |valid| <= k < |ranked| ensures ranked[k] in rest {
      assert ranked[k] == rest[k - |valid|];
    }
  }

  /** The fallback stops only at five: a result shorter than five holds
      every unpicked candidate. */
  lemma FallbackExhausts(candidates: seq<Movie>, picks: seq<Pick>, m: Movie)
    requires |Reconcile(candidates, picks)| < TopK
    requires m in candidates && m.id !in PickedIds(ById(candidates), picks)
    ensures Ranked(m, "") in Reconcile(candidates, picks)
  {
    var valid := ValidPicks(candidates, picks);
    var f := Unpicked(PickedIds(ById(candidates), picks));
    var rest := Leftovers(candidates, picks);
    FilterMapMembers(candidates, f);
    var j :| 0 <= j < |candidates| && candidates[j] == m;
    assert f(candidates[j]) == Some(Ranked(m, ""));
    assert Ranked(m, "") in rest;
    assert Reconcile(candidates, picks) == valid + rest;
  }

  /** A candidate named twice is returned twice, and a picked candidate is
      not used again by the fallback, so the result can be short of five. */
  lemma RepeatedPickKept()
    ensures var m := Movie(7, "Heat", [], 0.0, 0, "", "", None, None);
      Reconcile([m], [Pick(7, "a"), Pick(7, "b")]) == [Ranked(m, "a"), Ranked(m, "b")]
  {
    var m := Movie(7, "Heat", [], 0.0, 0, "", "", None, None);
    var picks := [Pick(7, "a"), Pick(7, "b")];
    var byId := ById([m]);
    assert byId == map[7 := m];
    var f := Resolve(byId);
    assert picks[..1] == [Pick(7, "a")] && picks[..1][..0] == [];
    assert ValidPicks([m], picks) == [Ranked(m, "a"), Ranked(m, "b")];
    assert 7 in PickedIds(byId, picks) by {
      assert picks[0].movieId == 7;
    }
    var g := Unpicked(PickedIds(byId, picks));
    assert [m][..0] == [];
    assert Leftovers([m], picks) == [];
  }
}
