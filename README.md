# WatchNext recommendation engine, modelled in Dafny

WatchNext recommends movies in two ways. The first is two rails on a movie's
page. "Similar Movies" comes from a TF-IDF content model over TMDB synopses,
genres and cast. "Viewers Also Liked" comes from an SVD factor model over
MovieLens ratings. The second is a mood search: TMDB's Discover endpoint
yields candidates, and a language model ranks them. This project models the
deterministic logic around the numeric libraries and the network. The
similarity rows are given as sequences of reals. Every HTTP or language-model
answer is a parameter.

One module per source file:

- `Hybrid` (`core/ml/hybrid.py`): min-max normalisation and the weighted blend.
  - The flat case gives every score 1.0.
  - An id found by only one signal is penalised.
  - The result is the top `n` after a sort.
- `ContentBased` and `Collaborative` (`core/ml/content_based.py`, `core/ml/collaborative.py`): the two models, as classes with a loaded flag.
  - A query's ranking is any descending permutation of the rows (`IsArgsortDesc`), because numpy's sort is not stable.
  - The result is the `n` rows after the top-ranked one.
  - The collaborative side translates rows back to TMDB ids and drops rows without a truthy id.
- `Similar` (`core/ml/similar.py`): the orchestrator class.
  - Before loading, it answers with an error.
  - Each rail's confidence gate looks at the rail's first score.
  - One metadata lookup covers the union of both lists' ids.
  - Enrichment keeps order and drops recommendations without metadata.
- `DataLoader` (`core/ml/data_loader.py`): the links filter and the two `dict(zip(...))` bridge maps (last row wins).
- `Training` (`scripts/train_models.py`):
  - the text profile and its loop-by-loop builder;
  - the corpus filter and the top-N corpus selection;
  - the skip-cached fetch;
  - the popularity floor, the dense index maps and their inverse, and the factor count `k`.
- `Recommender` (`core/recommender.py`):
  - the candidate summary lines;
  - reconciling the language model's picks with the candidates, including the fallback fill to five.
- `TmdbClient` (`core/tmdb_client.py`): the Discover query parameters, the enriched record shape, the watch-providers list and the genre table.
- `Common`: shared pieces.
  - the candidate record;
  - `dict(zip)` semantics;
  - slicing;
  - an order-preserving filter (`FilterMap`) with its kept positions (`Kept`);
  - the ranking predicate.

Where the code and its design description disagree, the model follows the code:

- Zero-similarity rows are not dropped. `ContentBased.SimilarRowsTopN` returns any row that ranks in.
- Ties are not broken by row order, because numpy's `argsort` is unstable. Equal scores may come in any order.
- The query is not excluded by identity. The top-ranked row is dropped, and with a tie that can be another movie, so the query is returned as similar to itself (`ContentBased.TieMayReturnQuery`).
- `rank_movies` does not always return five movies:
  - a repeated pick is kept twice, and the picked movie is not used again by the fallback (`Recommender.RepeatedPickKept`);
  - more than five valid picks are all returned.

## Model

| member | source | states |
|---|---|---|
| Common.ZipMap | core/ml/data_loader.py:56-57 | `dict(zip(keys, vals))` is defined exactly on the keys, and a repeated key keeps the value of its last occurrence |
| Common.ZipMapDistinct | core/ml/data_loader.py:56-57 | with no repeated key, every row's key maps to that row's value |
| Common.SelectRows | core/ml/content_based.py:58 | `order[1:n+1]` holds min(n, rows-1) rows, the ones ranked right after the top one |
| Common.SelectRowsRanked | core/ml/collaborative.py:69 | the selected rows are valid, distinct, in non-increasing score order, and never the top-ranked row |
| Common.ArgsortDesc | core/ml/content_based.py:58 | every score vector has a descending ranking (a permutation of its rows along which scores never increase) |
| Common.KeptLayout | scripts/train_models.py:156 | a filtering comprehension keeps exactly the elements that pass, in their original order, each mapped to its image |
| Common.FilterMapMembers | core/ml/similar.py:114-118 | every output is the image of some input, and every passing input's image is in the output |
| Common.IndexOf | core/ml/content_based.py:37 | `{tid: i for i, tid in enumerate(ids)}` covers exactly the ids; `ids[idx[t]] == t` for every id, repeats included; each id maps to its last row |
| Common.IndexOfInverse | core/ml/content_based.py:37 | with distinct ids, `idx[ids[i]] == i` for every row |
| Common.JoinEmptyIff | scripts/train_models.py:148 | a space-joined list is empty exactly when it has no parts, or one empty part |
| Hybrid.MinScore | core/ml/hybrid.py:20 | the lowest score is at most every score and is attained |
| Hybrid.MaxScore | core/ml/hybrid.py:21 | the highest score is at least every score and is attained |
| Hybrid.FlatIffMinIsMax | core/ml/hybrid.py:23 | the `max_s == min_s` test holds exactly when all scores are equal |
| Hybrid.AllOnes | core/ml/hybrid.py:24 | the flat case keeps every id in order and gives it 1.0 |
| Hybrid.Rescale | core/ml/hybrid.py:26-32 | min-max rescaling keeps ids and order, lands in [0,1], sends the minimum to 0 and the maximum to 1, and keeps the order between any two scores |
| Hybrid.NormalizeScores | core/ml/hybrid.py:14-32 | one entry per input with the same id in the same position (empty for empty), scores in [0,1], all 1.0 when flat, otherwise min to 0, max to 1, order kept |
| Hybrid.FlatNormalizesToOne | core/ml/hybrid.py:23-24 | if all input scores are equal, every output score is exactly 1.0 |
| Hybrid.NotFlatSpansUnit | core/ml/hybrid.py:26-32 | if the scores are not all equal, some output is 0.0 and some output is 1.0 |
| Hybrid.IdSet | core/ml/hybrid.py:64 | the id set of a list holds exactly the ids of its entries |
| Hybrid.NormalizedKeys | core/ml/hybrid.py:60-64 | the lookup built from a normalised list has exactly the raw list's ids as keys |
| Hybrid.ScoreMap | core/ml/hybrid.py:59-61 | every id of the list is a key, and each key holds the score of the last entry with that id, as the dict comprehension overwrites earlier ones |
| Hybrid.NormalizedMapBounds | core/ml/hybrid.py:60-61 | every score in a lookup built from a normalised list lies in [0,1] |
| Hybrid.BlendEntry | core/ml/hybrid.py:69-90 | `sources` holds "similar" iff the id has a content score and "also_liked" iff it has a collaborative score, in that order |
| Hybrid.CorroborationRewarded | core/ml/hybrid.py:79-84 | for α in [0,1] and scores in [0,1], a dual-source score is at least either penalised single-source score, and lies in [0,1] |
| Hybrid.InsertionPoint | core/ml/hybrid.py:93 | the returned position follows every entry scoring at least as high and precedes the first lower one |
| Hybrid.InsertSorted | core/ml/hybrid.py:93 | inserting there keeps the list sorted by descending score and adds exactly that entry to its contents |
| Hybrid.SortByScoreDesc | core/ml/hybrid.py:93 | the result is a permutation of the input, sorted by non-increasing score |
| Hybrid.ContentOnly | core/ml/hybrid.py:49-53 | without collaborative entries: the first n content entries, with raw scores, in order, each tagged only "similar" |
| Hybrid.BlendUnion | core/ml/hybrid.py:63-90 | the blend loop builds exactly one entry per id of the union, each the id's blended entry, with distinct ids |
| Hybrid.PermutationKeepsEntries | core/ml/hybrid.py:93 | the sort keeps the loop's entries: one per union id, distinct ids |
| Hybrid.TopOfSorted | core/ml/hybrid.py:93-94 | the first n entries of the sorted list are the n best of the union, in order, and no left-out id scores higher than a kept one |
| Hybrid.Blend | core/ml/hybrid.py:35-94 | `blend` returns the content-only list when there are no collaborative entries; otherwise the top n (at most n, distinct ids from the union, non-increasing, correctly blended) |
| ContentBased.SimilarRows | core/ml/content_based.py:58-63 | the result has min(n, rows-1) entries (none for an empty corpus), in non-increasing score order |
| ContentBased.SimilarRowsTopN | core/ml/content_based.py:58-63 | each entry is `tmdb_ids[i]` with score `sim[i]` for a distinct selected row other than the top one; no other left-out row scores higher; zero scores are not dropped |
| ContentBased.SimilarRowsDistinct | core/ml/content_based.py:60-63 | with distinct corpus ids, no id is recommended twice |
| ContentBased.QueryExcludedWhenUniqueTop | core/ml/content_based.py:58 | when the query's self-similarity is the unique maximum, the query ranks first and is not returned |
| ContentBased.TieMayReturnQuery | core/ml/content_based.py:58 | with a tie at the top, the ranking may put another row first, and the query is then returned |
| ContentBased.ContentBasedModel.constructor | core/ml/content_based.py:25-28 | a new model is not loaded and has no corpus |
| ContentBased.ContentBasedModel.Load | core/ml/content_based.py:30-37 | loading installs the corpus ids and the id-to-row map built from them, and sets the loaded state |
| ContentBased.ContentBasedModel.GetSimilar | core/ml/content_based.py:39-63 | `get_similar` is empty before loading or for an id outside the corpus; otherwise it has min(n, rows-1) entries and is the top-n selection |
| Collaborative.AlsoLikedRanked | core/ml/collaborative.py:69-80 | at most n results, fewer than the number of rows, in non-increasing similarity order |
| Collaborative.AlsoLikedSound | core/ml/collaborative.py:72-79 | each result is `ml_to_tmdb[idx_to_movie[i]]`, non-zero, for a selected row i, with that row's similarity |
| Collaborative.AlsoLikedComplete | core/ml/collaborative.py:72-79 | every selected row whose movie has a non-zero TMDB id is in the result |
| Collaborative.AlsoLikedRows | core/ml/collaborative.py:72-79 | the translation loop yields at most one result per selected row (AlsoLikedSound and AlsoLikedComplete state which ones) |
| Collaborative.UnmappedRowIsDropped | core/ml/collaborative.py:73-77 | a selected row without a TMDB mapping is dropped, not replaced, so the result can be shorter than n |
| Collaborative.CollaborativeModel.constructor | core/ml/collaborative.py:28-33 | a new model is not loaded and all four maps are empty |
| Collaborative.CollaborativeModel.Load | core/ml/collaborative.py:35-46 | loading installs the four maps and sets the loaded state |
| Collaborative.CollaborativeModel.GetAlsoLiked | core/ml/collaborative.py:48-80 | `get_also_liked` is empty before loading, for an id without a bridge entry, or for a bridged id outside `movie_to_idx`; otherwise it is the translated selection, built row by row |
| DataLoader.LoadLinksKeepsExactlyMapped | core/ml/data_loader.py:30-31 | exactly the rows with a TMDB id are kept, with their ids, in table order |
| DataLoader.LoadLinksConcat | core/ml/data_loader.py:30 | filtering two tables in turn is filtering their concatenation |
| DataLoader.LoadLinks | core/ml/data_loader.py:30-31 | `load_links` yields at most one link per table row (LoadLinksKeepsExactlyMapped states which ones) |
| DataLoader.BuildMapping | core/ml/data_loader.py:51-59 | `ml_to_tmdb` is defined exactly on the movieId column, and `tmdb_to_ml` exactly on the tmdbId column |
| DataLoader.MovieToTmdbLastRowWins | core/ml/data_loader.py:56 | `ml_to_tmdb[m]` comes from a row of m, and a row of m with another value is followed by a later row of m |
| DataLoader.TmdbToMovieLastRowWins | core/ml/data_loader.py:57 | the same for `tmdb_to_ml` |
| DataLoader.MappingInverse | core/ml/data_loader.py:56-57 | with neither column repeating, both maps agree with every row and are inverse to each other |
| DataLoader.SharedTmdbIdBreaksRoundTrip | core/ml/data_loader.py:56-57 | two movies sharing a TMDB id break the round trip: the reverse map keeps the later one |
| Similar.Gate | core/ml/similar.py:102-105 | a non-empty list whose first score is below the threshold becomes empty; any other list passes unchanged |
| Similar.GateIdempotent | core/ml/similar.py:102-105 | gating twice is gating once |
| Similar.GateOnRanked | core/ml/similar.py:102-105 | on a ranked list, a list passes iff it is empty or its top score reaches the threshold, and the top score bounds all the others |
| Similar.RequestedIds | core/ml/similar.py:108-110 | the lookup set is exactly the union of both gated lists' ids |
| Similar.Rails | core/ml/similar.py:97-130 | the response carries the query id, and each rail is no longer than its gated list |
| Similar.RailInOrder | core/ml/similar.py:114-124 | each rail is the order-preserving subsequence of its gated list whose ids have metadata, each entry with its metadata, score and rec_type; none with metadata is left out |
| Similar.Attach | core/ml/similar.py:116-118 | an entry yields a record exactly when its id has metadata, and the record carries that metadata, the entry's score and the rail's rec_type |
| Similar.RailComplete | core/ml/similar.py:114-124 | when every recommendation has metadata, the rail keeps all of them, in order, with their scores |
| Similar.HiddenRailIsEmpty | core/ml/similar.py:102-111 | a rail whose top score is below its threshold is empty, and its ids are not requested |
| Similar.CollectIds | core/ml/similar.py:108-110 | the loop over `cb_raw + cf_raw` collects exactly the requested id set |
| Similar.EnrichRail | core/ml/similar.py:114-118 | the enrichment loop builds exactly the filtered rail |
| Similar.AssembleRails | core/ml/similar.py:101-130 | gating, one lookup and both loops give the response the rails describe |
| Similar.SimilarMovies.constructor | core/ml/similar.py:71-74 | a new orchestrator is not loaded and owns two fresh, unloaded models |
| Similar.SimilarMovies.Load | core/ml/similar.py:76-80 | loading loads both models with the given data and sets the flag |
| Similar.SimilarMovies.GetRecommendations | core/ml/similar.py:82-130 | before loading, the answer is the "Models not loaded" error; after loading, it is the gated and enriched rails of both models' answers |
| Training.Slug | scripts/train_models.py:141 | `lower().replace(' ', '_')` keeps the length, lowercases ASCII letters and turns each space into `_` |
| Training.SlugHasNoSpace | scripts/train_models.py:141 | a tag holds no space, so it stays one word |
| Training.GenreTagsLayout | scripts/train_models.py:140-142 | each genre yields exactly three copies of its `GENRE_` tag, genre by genre |
| Training.ActorTags | scripts/train_models.py:144-146 | each actor yields one `ACTOR_` tag, in cast order |
| Training.PartsLayout | scripts/train_models.py:134-146 | the words are the overview first iff non-empty, then three tags per genre, then one tag per actor, nothing else |
| Training.ProfileEmptyIff | scripts/train_models.py:136-148 | the profile is empty exactly when there is no overview, genre or actor, and a non-empty overview starts it |
| Training.BuildTextProfile | scripts/train_models.py:124-148 | the appending loops build exactly the joined profile |
| Training.ValidIds | scripts/train_models.py:156 | every kept id is cached with a non-empty overview |
| Training.CorpusRows | scripts/train_models.py:156-157 | `valid_ids` is the order-preserving sublist of ids with a cached non-empty overview, and `texts[k]` is the profile of `valid_ids[k]` |
| Training.Texts | scripts/train_models.py:157 | one text per corpus id, in the same order (CorpusRows states that each is the profile of its id) |
| Training.TopCorpusIds | scripts/train_models.py:264-265 | the corpus has at most 3000 ids |
| Training.TopCorpusMostRated | scripts/train_models.py:262-265 | each corpus id bridges a top movie, every bridged top movie contributes, and no movie left out has more ratings than one kept |
| Training.ToFetch | scripts/train_models.py:81 | exactly the requested ids missing from the cache are fetched |
| Training.Entry | scripts/train_models.py:96-107 | a cached record keeps at most the first five cast names, the genres, and the overview (or "") |
| Training.FetchTmdbData | scripts/train_models.py:75-119 | cached records are unchanged, a new record is added exactly for an uncached requested id that answered, and each new record is that answer's entry |
| Training.CountAfterFilter | scripts/train_models.py:189-191 | the filter keeps all ratings of a movie with at least 50 ratings and none of any other |
| Training.PopularityFloor | scripts/train_models.py:189-191 | exactly the ratings of movies with at least 50 ratings remain, in order, every remaining movie with all its ratings |
| Training.Popular | scripts/train_models.py:189-191 | the popularity filter keeps a sublist of the ratings (PopularityFloor and CountAfterFilter state which ones) |
| Training.Unique | scripts/train_models.py:196-197 | `unique()` lists each value of the column once and nothing else |
| Training.UniqueInFirstOrder | scripts/train_models.py:196-197 | `unique()` lists values in order of first appearance |
| Training.Invert | scripts/train_models.py:201 | `idx_to_movie` is defined on the indices and sends each back to its movie |
| Training.FactorCount | scripts/train_models.py:218 | k = min(100, min(n_users, n_movies) - 1): at most 100, below both dimensions, and equal to one of the three bounds |
| Training.EnumerationBijective | scripts/train_models.py:199-201 | enumerating a list with no repeats is a bijection onto `0..len-1`, and the inverted map is its inverse |
| Training.MovieIndexDense | scripts/train_models.py:197-201 | `movie_to_idx` is defined exactly on the remaining movies with values exactly `0..n_movies-1`, and `idx_to_movie` on exactly those indices |
| Training.MovieIndexInverse | scripts/train_models.py:200-201 | `idx_to_movie` and `movie_to_idx` are inverse in both directions |
| Training.TrainIndex | scripts/train_models.py:189-218 | the factor count is `min(100, min(n_users, n_movies) - 1)` of the derived index sizes (MovieIndexDense, MovieIndexInverse and UserIndexDense state the index maps) |
| Training.UserIndexDense | scripts/train_models.py:196-199 | `user_to_idx` is defined exactly on the remaining users with values exactly `0..n_users-1` |
| Recommender.ProviderNames | core/recommender.py:76 | one provider name per provider, in order |
| Recommender.StreamingSuffix | core/recommender.py:74-77 | the streaming suffix is present iff providers are non-empty, and then names the first provider first |
| Recommender.SummaryLayout | core/recommender.py:78-81 | a line opens with the id and quoted title and ends with at most 150 characters from the start of the overview, then the suffix |
| Recommender.SummariesOnePerCandidate | core/recommender.py:72-82 | one summary line per candidate, at the candidate's position |
| Recommender.CandidateSummaries | core/recommender.py:72-82 | the loop builds exactly those lines |
| Recommender.ById | core/recommender.py:108 | `candidates_by_id` is defined exactly on the candidates' ids and maps each to a candidate with that id |
| Recommender.PickedIdsMembers | core/recommender.py:109-115 | `picked_ids` holds exactly the ids of picks that name a candidate |
| Recommender.ResolveStep | core/recommender.py:111-115 | one more pick adds its candidate and reason, and its id, or nothing |
| Recommender.UnpickedStep | core/recommender.py:119-121 | one more candidate adds itself with "" exactly when unpicked |
| Recommender.ResolvePicks | core/recommender.py:108-115 | the picks loop builds the valid picks and `picked_ids` |
| Recommender.FillUp | core/recommender.py:117-123 | the fallback loop appends the first unpicked candidates, in order, and stops at five |
| Recommender.RankMovies | core/recommender.py:107-125 | the reconciliation is exactly `Reconcile` |
| Recommender.Reconcile | core/recommender.py:107-125 | the valid picks come first; the length is theirs if at least five, otherwise min(5, valid + unpicked); exactly five when enough unpicked candidates exist |
| Recommender.ReconcileFromCandidates | core/recommender.py:108-114 | every returned record is a candidate, so picks naming no candidate are dropped |
| Recommender.ValidPicksInOrder | core/recommender.py:111-115 | the valid picks follow the model's order, each with its pick's id and reason, and every pick naming a candidate is kept |
| Recommender.RepeatedPickKept | core/recommender.py:111-115 | a pick repeated twice gives two records, and the fallback does not reuse the movie |
| Recommender.LeftoversUnpicked | core/recommender.py:119-121 | the fallback's pool is unpicked candidates with an empty reason |
| Recommender.FallbackOnlyWhenShort | core/recommender.py:117-123 | with five valid picks or more there is no fallback; otherwise what follows the picks is a prefix of the pool |
| Recommender.FallbackEntries | core/recommender.py:117-123 | every record after the valid picks is an unpicked candidate with `why` "" |
| Recommender.FallbackExhausts | core/recommender.py:117-123 | a result shorter than five holds every unpicked candidate |
| TmdbClient.GenreIdRoundTrip | core/tmdb_client.py:13-19 | every TMDB genre id's name maps back to the id in the mood parser's table |
| TmdbClient.GenreNameRoundTrip | core/mood_parser.py:13-19 | every genre name of the mood parser maps back to the name via its id |
| TmdbClient.GenreTablesInverse | core/tmdb_client.py:13-19 | the two genre tables are inverse to each other on their whole domains |
| TmdbClient.MappingNamesDistinct | core/tmdb_client.py:48-57 | the mapped TMDB names are distinct and different from the default, region and vote-count parameters |
| TmdbClient.IsDiscoverQuery | core/tmdb_client.py:40-68 | the description of the Discover query: the four defaults, `watch_region` "US" iff `with_watch_providers` is truthy, each mapped present non-null filter under its TMDB name, `vote_count.gte` 50, nothing else (DiscoverQueryUnique shows it fixes the query; DiscoverParams builds it) |
| TmdbClient.DiscoverQueryUnique | core/tmdb_client.py:40-68 | the description of the query fixes it completely |
| TmdbClient.DiscoverParams | core/tmdb_client.py:40-68 | the four defaults; `watch_region` "US" iff `with_watch_providers` is truthy; each mapped, present, non-null filter under its TMDB name; `vote_count.gte` 50; nothing else |
| TmdbClient.DiscoverMovies | core/tmdb_client.py:30-74 | `discover_movies` sends that query and returns the first `limit` results |
| TmdbClient.LogoUrl | core/tmdb_client.py:106 | `logo_url` is None iff there is no non-empty logo path, and otherwise is the w92 image URL of the path |
| TmdbClient.LogoUrlInjective | core/tmdb_client.py:106 | a logo URL determines its logo path |
| TmdbClient.GetWatchProviders | core/tmdb_client.py:88-109 | empty without the region or its "flatrate" list; otherwise one provider per flatrate entry, in order, with its name and logo URL |
| TmdbClient.UnknownOnlyForUnmapped | core/tmdb_client.py:121 | a genre is named "Unknown" exactly when its id is outside the genre table |
| TmdbClient.Shape | core/tmdb_client.py:120-132 | the record has the item's id and mapped genres, the details' title with the Discover title as fallback, a 4-character prefix of the release date, and a poster URL iff a non-empty poster path exists |
| TmdbClient.EnrichMovies | core/tmdb_client.py:112-139 | one record per Discover item, in order, with US providers attached exactly when requested |

## Left out

- Similarity numerics. The TF-IDF fitting, `cosine_similarity`, `svds`, the sparse matrix and the rating mean are library routines. The similarity rows are inputs, and so are their rankings (any descending permutation).
- Score rounding. `round(…, 4)` in the three ML files is float-specific, so scores are kept unrounded. Reals stand in for floats throughout.
- Network and language model. These become parameters:
  - the TMDB requests (`_fetch_tmdb_metadata`, the HTTP part of `fetch_tmdb_data`, every `httpx` call in the TMDB client);
  - exception paths of the two guarded fetches, `_fetch_tmdb_metadata` (`core/ml/similar.py:42-64`) and `fetch_tmdb_data` (`scripts/train_models.py:86-116`), where a failed request simply yields no record, which the lookup parameters can express;
  - the OpenAI call, whose `picks` are the input.
- TmdbClient.DiscoverMovies: the Discover answer is a total parameter, so every request is taken to succeed. In the source, the unhandled `raise_for_status` (`core/tmdb_client.py:71`) raises out of `discover_movies` on an HTTP error.
- TmdbClient.GetWatchProviders: the providers answer is a total parameter, so every request is taken to succeed. In the source, the unhandled `raise_for_status` (`core/tmdb_client.py:98`) raises out of `get_watch_providers` on an HTTP error.
- TmdbClient.EnrichMovies: the details and providers answers are total parameters, so every request is taken to succeed. In the source, `get_movie_details` and `get_watch_providers` raise on an HTTP error (`core/tmdb_client.py:84`, `:98`), and one failure aborts the whole enriched list.
- Collaborative.CollaborativeModel.GetAlsoLiked: the `requires` that every row index is a key of `idx_to_movie` excludes the `KeyError` of `self.idx_to_movie[i]` (`core/ml/collaborative.py:73`). Trained artifacts meet it: Training.MovieIndexDense shows that `idx_to_movie` is defined on exactly `0..n_movies-1`, the rows of the similarity matrix.
- Similar.SimilarMovies.GetRecommendations: it carries the same `requires` on the collaborative rows, for the same reason.
- Prompt text. The system prompt, the user message around the summary lines (`core/recommender.py:84-105`) and the newline join are text for the language model, so they are not modelled.
- Recommender.SummaryLayout: number formatting (`str` of an int or a float) is a parameter, so the contract does not fix how the id, rating and runtime are rendered.
- Persistence: pickle files, the JSON cache file and its checkpoints, CSV reading and `_csv_path`.
- Sampling in `load_ratings`.
- Printing, timing and `time.sleep`.
- `api.py` and the test scripts.
- The mood parser, apart from the genre table that the genre round-trip lemmas use.
- Negative `n` and `limit`. They are natural numbers here, so Python's negative slice bounds are not modelled.
- Training.Slug: lowercasing covers ASCII letters only. Python's full Unicode `str.lower` is not modelled.
- JSON nulls inside TMDB answers: absent and null fields are both `None`, and a genre list or cast list is taken as given.
- TmdbClient.DiscoverParams: `params` is a map, so the insertion order of the Python dict (which only affects the URL's parameter order) is not modelled.
- Training.FetchTmdbData: the cache is updated in place in Python. It is modelled as a value returned by the method.
- Training.TrainIndex:
  - the factorisation itself is not modelled;
  - `svds` rejects k ≤ 0, and the model only computes k;
  - the `rows`/`cols` arrays that map each rating into the matrix are not modelled.
- Hybrid.SortByScoreDesc: the contract states a permutation sorted by descending score, not Python's stability. The blended ids are distinct and come from a set whose iteration order is unspecified, so the order among equal scores is unspecified either way.
