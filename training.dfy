/** The deterministic parts of offline training: choosing the content
    corpus, fetching what the cache lacks, building text profiles, and the
    popularity floor and dense index maps of the collaborative model. */
module Training {
  import opened Common

  /** How many of the most-rated movies form the content corpus. */
  const CorpusSize: nat := 3000
  /** How many times each genre tag is repeated in a text profile. */
  const GenreRepeat: nat := 3
  /** The fewest ratings a movie needs to enter the collaborative model. */
  const MinRatings: nat := 50
  /** The most latent factors the collaborative model uses. */
  const FactorLimit: int := 100
  /** The most cast names kept per movie. */
  const CastLimit: nat := 5

  // ---------------------------------------------------------------------------
  // Text profiles

  /** A cached TMDB record. */
  datatype MovieData = MovieData(overview: string, genres: seq<string>, cast: seq<string>, title: string)

  /** `str.lower` on ASCII letters. */
  function Lower(c: char): char
  {
    if 'A' <= c <= 'Z' then (c as int + 32) as char else c
  }

  /** `name.lower().replace(' ', '_')`. */
  function Slug(name: string): (r: string)
    ensures |r| == |name|
    ensures forall i :: 0 <= i < |name| ==> r[i] == if name[i] == ' ' then '_' else Lower(name[i])
  {
    seq(|name|, i requires 0 <= i < |name| => if Lower(name[i]) == ' ' then '_' else Lower(name[i]))
  }

  /** A tag is one token: it holds no space. */
  lemma SlugHasNoSpace(name: string)
    ensures ' ' !in Slug(name)
  {
    var r := Slug(name);
    forall i | 0 <= i < |r| ensures r[i] != ' ' {
      if name[i] != ' ' {
        assert Lower(name[i]) != ' ';
      }
    }
  }

  function GenreTag(genre: string): string { "GENRE_" + Slug(genre) }

  function ActorTag(actor: string): string { "ACTOR_" + Slug(actor) }

  /** `[x] * n`. */
  function Repeat(x: string, n: nat): (r: seq<string>)
    ensures |r| == n && forall i :: 0 <= i < n ==> r[i] == x
  {
    seq(n, _ => x)
  }

  /** `GenreRepeat` copies of each genre's tag, genre by genre. */
  function GenreTags(genres: seq<string>): (r: seq<string>)
    ensures |r| == GenreRepeat * |genres|
  {
    if |genres| == 0 then []
    else GenreTags(genres[..|genres| - 1]) + Repeat(GenreTag(genres[|genres| - 1]), GenreRepeat)
  }

  /** Position `k` of the genre tags is the tag of genre `k / GenreRepeat`. */
  lemma {:induction false} GenreTagsLayout(genres: seq<string>)
    ensures forall k :: 0 <= k < |GenreTags(genres)| ==> GenreTags(genres)[k] == GenreTag(genres[k / GenreRepeat])
    decreases |genres|
  {
    if |genres| > 0 {
      var init := genres[..|genres| - 1];
      GenreTagsLayout(init);
      var prev, r := GenreTags(init), GenreTags(genres);
      assert r == prev + Repeat(GenreTag(genres[|genres| - 1]), GenreRepeat);
      forall k | 0 <= k < |r| ensures r[k] == GenreTag(genres[k / GenreRepeat]) {
        if k < |prev| {
          assert k / GenreRepeat < |init| && init[k / GenreRepeat] == genres[k / GenreRepeat];
        } else {
          assert k / GenreRepeat == |genres| - 1;
        }
      }
    }
  }

  /** One tag per cast member, in cast order. */
  function ActorTags(cast: seq<string>): (r: seq<string>)
    ensures |r| == |cast|
    ensures forall k :: 0 <= k < |r| ==> r[k] == ActorTag(cast[k])
  {
    seq(|cast|, k requires 0 <= k < |cast| => ActorTag(cast[k]))
  }

  /** The list of words `build_text_profile` joins. */
  function Parts(d: MovieData): seq<string>
  {
    (if d.overview != "" then [d.overview] else []) + GenreTags(d.genres) + ActorTags(d.cast)
  }

  function TextProfile(d: MovieData): string
  {
    Join(" ", Parts(d))
  }

  /** The layout of the profile's words: the overview first exactly when it
      is non-empty, then `GenreRepeat` tags per genre, then one tag per
      actor, nothing else. */
  lemma PartsLayout(d: MovieData)
    ensures var o := if d.overview != "" then 1 else 0;
      var p := Parts(d);
      && |p| == o + GenreRepeat * |d.genres| + |d.cast|
      && (d.overview != "" ==> p[0] == d.overview)
      && (forall k :: o <= k < o + GenreRepeat * |d.genres| ==> p[k] == GenreTag(d.genres[(k - o) / GenreRepeat]))
      && (forall k :: o + GenreRepeat * |d.genres| <= k < |p| ==> p[k] == ActorTag(d.cast[k - o - GenreRepeat * |d.genres|]))
  {
    var o := if d.overview != "" then 1 else 0;
    var head: seq<string> := if d.overview != "" then [d.overview] else [];
    var g, a := GenreTags(d.genres), ActorTags(d.cast);
    GenreTagsLayout(d.genres);
    var p := Parts(d);
    assert p == head + g + a;
    forall k | o <= k < o + |g| ensures p[k] == GenreTag(d.genres[(k - o) / GenreRepeat]) {
      assert p[k] == g[k - o];
    }
    forall k | o + |g| <= k < |p| ensures p[k] == ActorTag(d.cast[k - o - |g|]) {
      assert p[k] == a[k - o - |g|];
    }
  }

  /** The profile is empty exactly when the movie has no overview, no genre
      and no cast; a non-empty overview starts it. */
  lemma ProfileEmptyIff(d: MovieData)
    ensures TextProfile(d) == "" <==> d.overview == "" && |d.genres| == 0 && |d.cast| == 0
    ensures d.overview != "" ==> d.overview <= TextProfile(d)
  {
    var p := Parts(d);
    PartsLayout(d);
    JoinEmptyIff(" ", p);
    if |p| == 1 && d.overview == "" {
      assert |d.genres| == 0;
      assert p[0] == ActorTag(d.cast[0]);
    }
  }

  lemma GenreTagsStep(genres: seq<string>, i: nat)
    requires i < |genres|
    ensures GenreTags(genres[..i + 1]) == GenreTags(genres[..i]) + Repeat(GenreTag(genres[i]), GenreRepeat)
  {
    assert genres[..i + 1][..i] == genres[..i];
  }

  lemma ActorTagsStep(cast: seq<string>, j: nat)
    requires j < |cast|
    ensures ActorTags(cast[..j + 1]) == ActorTags(cast[..j]) + [ActorTag(cast[j])]
  {
  }

  /** `build_text_profile`, which appends the words one loop at a time. */
  method BuildTextProfile(d: MovieData) returns (profile: string)
    ensures profile == TextProfile(d)
  {
    var parts: seq<string> := [];
    if d.overview != "" {
      parts := parts + [d.overview];
    }
    ghost var head := parts;
    var i := 0;
    while i < |d.genres|
      invariant 0 <= i <= |d.genres|
      invariant parts == head + GenreTags(d.genres[..i])
    {
      var tag := GenreTag(d.genres[i]);
      GenreTagsStep(d.genres, i);
      assert (head + GenreTags(d.genres[..i])) + Repeat(tag, GenreRepeat) == head + GenreTags(d.genres[..i + 1]);
      parts := parts + Repeat(tag, GenreRepeat);
      i := i + 1;
    }
    assert d.genres[..i] == d.genres;
    ghost var front := parts;
    var j := 0;
    while j < |d.cast|
      invariant 0 <= j <= |d.cast|
      invariant parts == front + ActorTags(d.cast[..j])
    {
      var tag := ActorTag(d.cast[j]);
      ActorTagsStep(d.cast, j);
      assert (front + ActorTags(d.cast[..j])) + [tag] == front + ActorTags(d.cast[..j + 1]);
      parts := parts + [tag];
      j := j + 1;
    }
    assert d.cast[..j] == d.cast;
    assert parts == (head + GenreTags(d.genres)) + ActorTags(d.cast) == Parts(d);
    profile := Join(" ", parts);
  }

  // ---------------------------------------------------------------------------
  // The content corpus

  /** `tid in cache and cache[tid].get("overview")`. */
  function HasOverview(cache: map<int, MovieData>): int -> Option<int>
  {
    tid => if tid in cache && cache[tid].overview != "" then Some(tid) else None
  }

  /** The `valid_ids` of `train_content_based`. */
  function ValidIds(tmdbIds: seq<int>, cache: map<int, MovieData>): (valid: seq<int>)
    ensures |valid| <= |tmdbIds|
    ensures forall t :: t in valid ==> t in cache && cache[t].overview != ""
  {
    var valid := FilterMap(tmdbIds, HasOverview(cache));
    FilterMapMembers(tmdbIds, HasOverview(cache));
    valid
  }

  /** The `texts` of `train_content_based`, parallel to `valid`. */
  function Texts(valid: seq<int>, cache: map<int, MovieData>): (texts: seq<string>)
    requires forall i :: 0 <= i < |valid| ==> valid[i] in cache
    ensures |texts| == |valid|
  {
    seq(|valid|, i requires 0 <= i < |valid| => TextProfile(cache[valid[i]]))
  }

  /** The corpus is the order-preserving sublist of the ids that have a
      cached, non-empty overview; each text is the profile of the id at the
      same row and starts with that overview. */
  lemma CorpusRows(tmdbIds: seq<int>, cache: map<int, MovieData>)
    ensures var valid := ValidIds(tmdbIds, cache);
      var idx := Kept(tmdbIds, HasOverview(cache));
      var texts := Texts(valid, cache);
      && |idx| == |valid|
      && (forall k :: 0 <= k < |valid| ==> tmdbIds[idx[k]] == valid[k])
      && (forall k, l :: 0 <= k < l < |valid| ==> idx[k] < idx[l])
      && (forall j :: 0 <= j < |tmdbIds| && tmdbIds[j] in cache && cache[tmdbIds[j]].overview != "" ==> j in idx)
      && (forall k :: 0 <= k < |valid| ==> texts[k] == TextProfile(cache[valid[k]]) && cache[valid[k]].overview <= texts[k])
  {
    var valid := ValidIds(tmdbIds, cache);
    var f := HasOverview(cache);
    var idx := Kept(tmdbIds, f);
    KeptLayout(tmdbIds, f);
    forall k | 0 <= k < |valid| ensures tmdbIds[idx[k]] == valid[k] {
      assert f(tmdbIds[idx[k]]) == Some(valid[k]);
    }
    forall j | 0 <= j < |tmdbIds| && tmdbIds[j] in cache && cache[tmdbIds[j]].overview != "" ensures j in idx {
      assert f(tmdbIds[j]).Some?;
    }
    forall k | 0 <= k < |valid| ensures cache[valid[k]].overview <= TextProfile(cache[valid[k]]) {
      ProfileEmptyIff(cache[valid[k]]);
    }
  }

  /** A MovieLens rating. */
  datatype Rating = Rating(userId: int, movieId: int, rating: real)

  /** How many ratings `movieId` has. */
  function CountOf(ratings: seq<Rating>, movieId: int): (c: nat)
    ensures c <= |ratings|
  {
    if |ratings| == 0 then 0
    else CountOf(ratings[..|ratings| - 1], movieId) + (if ratings[|ratings| - 1].movieId == movieId then 1 else 0)
  }

  function MovieIdsOf(ratings: seq<Rating>): (ids: seq<int>)
    ensures |ids| == |ratings| && forall i :: 0 <= i < |ratings| ==> ids[i] == ratings[i].movieId
  {
    seq(|ratings|, i requires 0 <= i < |ratings| => ratings[i].movieId)
  }

  function UserIdsOf(ratings: seq<Rating>): (ids: seq<int>)
    ensures |ids| == |ratings| && forall i :: 0 <= i < |ratings| ==> ids[i] == ratings[i].userId
  {
    seq(|ratings|, i requires 0 <= i < |ratings| => ratings[i].userId)
  }

  /** `ratings.groupby("movieId").size()` sorted by descending count: the
      distinct rated movies, most-rated first. The sort is not stable, so
      movies with equal counts come in no fixed order. */
  ghost predicate IsCountRanking(ranked: seq<int>, ratings: seq<Rating>)
  {
    && Distinct(ranked)
    && (forall m :: m in ranked <==> m in MovieIdsOf(ratings))
    && (forall k, l :: 0 <= k < l < |ranked| ==> CountOf(ratings, ranked[k]) >= CountOf(ratings, ranked[l]))
  }

  /** `ml_to_tmdb[mid] for mid in ... if mid in ml_to_tmdb`. */
  function Bridge(mlToTmdb: map<int, int>): int -> Option<int>
  {
    mid => if mid in mlToTmdb then Some(mlToTmdb[mid]) else None
  }

  /** The candidate TMDB ids of the content corpus: the most-rated
      `CorpusSize` movies that have a TMDB id, in rank order. */
  function TopCorpusIds(ranked: seq<int>, mlToTmdb: map<int, int>): (ids: seq<int>)
    ensures |ids| <= CorpusSize
  {
    FilterMap(Take(ranked, CorpusSize), Bridge(mlToTmdb))
  }

  /** Each corpus id is the TMDB id of one of the top movies, every top
      movie with a TMDB id contributes, and a movie left out of the top has
      no more ratings than any movie in it. */
  lemma TopCorpusMostRated(ranked: seq<int>, ratings: seq<Rating>, mlToTmdb: map<int, int>)
    requires IsCountRanking(ranked, ratings)
    ensures var top := Take(ranked, CorpusSize);
      var ids := TopCorpusIds(ranked, mlToTmdb);
      && (forall t :: t in ids ==> exists m :: m in top && m in mlToTmdb && mlToTmdb[m] == t)
      && (forall m :: m in top && m in mlToTmdb ==> mlToTmdb[m] in ids)
      && (forall m, t :: m in MovieIdsOf(ratings) && m !in top && t in top ==> CountOf(ratings, m) <= CountOf(ratings, t))
  {
    var top := Take(ranked, CorpusSize);
    var f := Bridge(mlToTmdb);
    FilterMapMembers(top, f);
    forall t | t in TopCorpusIds(ranked, mlToTmdb) ensures exists m :: m in top && m in mlToTmdb && mlToTmdb[m] == t {
      var j :| 0 <= j < |top| && f(top[j]) == Some(t);
    }
    forall m | m in top && m in mlToTmdb ensures mlToTmdb[m] in TopCorpusIds(ranked, mlToTmdb) {
      var j :| 0 <= j < |top| && top[j] == m;
      assert f(top[j]).Some?;
    }
    forall m, t | m in MovieIdsOf(ratings) && m !in top && t in top ensures CountOf(ratings, m) <= CountOf(ratings, t) {
      var p :| 0 <= p < |ranked| && ranked[p] == m;
      var q :| 0 <= q < |top| && top[q] == t;
      assert ranked[q] == t;
      TakeKeeps(ranked, CorpusSize, p);
    }
  }

  // ---------------------------------------------------------------------------
  // Fetching TMDB records

  /** What a successful `/movie/{id}` response provides; a missing field is
      `None` (text) or empty (lists). */
  datatype Details = Details(overview: Option<string>, genres: seq<string>, cast: seq<string>, title: Option<string>)

  function OrEmpty(s: Option<string>): string
  {
    match s case Some(v) => v case None => ""
  }

  /** The record cached for a response: at most the first `CastLimit` cast
      names, and `""` for a missing overview or title. */
  function Entry(r: Details): (d: MovieData)
    ensures |d.cast| == Min(CastLimit, |r.cast|) && d.cast <= r.cast
    ensures d.genres == r.genres
    ensures r.overview.Some? ==> d.overview == r.overview.value
    ensures r.overview.None? ==> d.overview == ""
  {
    MovieData(OrEmpty(r.overview), r.genres, Take(r.cast, CastLimit), OrEmpty(r.title))
  }

  function Uncached(cache: map<int, MovieData>): int -> Option<int>
  {
    tid => if tid !in cache then Some(tid) else None
  }

  /** `to_fetch`: the requested ids missing from the cache, in request order. */
  function ToFetch(tmdbIds: seq<int>, cache: map<int, MovieData>): (toFetch: seq<int>)
    ensures forall t :: t in toFetch <==> t in tmdbIds && t !in cache
  {
    var toFetch := FilterMap(tmdbIds, Uncached(cache));
    FilterMapMembers(tmdbIds, Uncached(cache));
    assert forall t :: t in toFetch ==> t in tmdbIds && t !in cache by {
      forall t | t in toFetch ensures t in tmdbIds && t !in cache {
        var j :| 0 <= j < |tmdbIds| && Uncached(cache)(tmdbIds[j]) == Some(t);
      }
    }
    assert forall t :: t in tmdbIds && t !in cache ==> t in toFetch by {
      forall t | t in tmdbIds && t !in cache ensures t in toFetch {
        var j :| 0 <= j < |tmdbIds| && tmdbIds[j] == t;
        assert Uncached(cache)(tmdbIds[j]).Some?;
      }
    }
    toFetch
  }

  /** `fetch_tmdb_data`: `responses` holds the ids whose request succeeds
      with status 200 and what they return; a failed request leaves the
      cache as it is. A cached id is never fetched again. */
  method FetchTmdbData(tmdbIds: seq<int>, cache: map<int, MovieData>, responses: map<int, Details>)
    returns (result: map<int, MovieData>)
    ensures forall t :: t in cache ==> t in result && result[t] == cache[t]
    ensures forall t :: t in result <==> t in cache || (t in tmdbIds && t in responses)
    ensures forall t :: t in result && t !in cache ==> result[t] == Entry(responses[t])
  {
    var toFetch := ToFetch(tmdbIds, cache);
    result := cache;
    var i := 0;
    while i < |toFetch|
      invariant 0 <= i <= |toFetch|
      invariant forall t :: t in cache ==> t in result && result[t] == cache[t]
      invariant forall t :: t in result <==> t in cache || (t in toFetch[..i] && t in responses)
      invariant forall t :: t in result && t !in cache ==> result[t] == Entry(responses[t])
    {
      var tid := toFetch[i];
      if tid in responses {
        result := result[tid := Entry(responses[tid])];
      }
      assert toFetch[..i + 1] == toFetch[..i] + [tid];
      i := i + 1;
    }
    assert toFetch[..i] == toFetch;
  }

  // ---------------------------------------------------------------------------
  // The collaborative model's index

  /** `ratings[ratings["movieId"].isin(popular_movies)]`, where the popular
      movies are those with at least `MinRatings` ratings in `all`. */
  function KeepPopular(all: seq<Rating>): Rating -> Option<Rating>
  {
    (r: Rating) => if CountOf(all, r.movieId) >= MinRatings then Some(r) else None
  }

  function Popular(ratings: seq<Rating>): (kept: seq<Rating>)
    ensures |kept| <= |ratings|
  {
    FilterMap(ratings, KeepPopular(ratings))
  }

  /** Filtering drops all ratings of an unpopular movie and keeps all
      ratings of a popular one. */
  lemma {:induction false} CountAfterFilter(s: seq<Rating>, all: seq<Rating>, m: int)
    ensures CountOf(FilterMap(s, KeepPopular(all)), m) == if CountOf(all, m) >= MinRatings then CountOf(s, m) else 0
  {
    if |s| > 0 {
      var init, last := s[..|s| - 1], s[|s| - 1];
      CountAfterFilter(init, all, m);
      var prev := FilterMap(init, KeepPopular(all));
      var kept := FilterMap(s, KeepPopular(all));
      if CountOf(all, last.movieId) >= MinRatings {
        assert kept == prev + [last];
        assert kept[..|kept| - 1] == prev;
      } else {
        assert kept == prev;
      }
    }
  }

  /** After the popularity floor, exactly the ratings of movies with at
      least `MinRatings` ratings remain, in their original order, and every
      movie left still has all of its ratings. */
  lemma PopularityFloor(ratings: seq<Rating>)
    ensures var kept := Popular(ratings);
      var idx := Kept(ratings, KeepPopular(ratings));
      && (forall k :: 0 <= k < |kept| ==> kept[k] == ratings[idx[k]] && CountOf(ratings, kept[k].movieId) >= MinRatings)
      && (forall k, l :: 0 <= k < l < |kept| ==> idx[k] < idx[l])
      && (forall j :: 0 <= j < |ratings| && CountOf(ratings, ratings[j].movieId) >= MinRatings ==> j in idx)
      && (forall m :: CountOf(kept, m) == if CountOf(ratings, m) >= MinRatings then CountOf(ratings, m) else 0)
  {
    var f := KeepPopular(ratings);
    var kept := Popular(ratings);
    var idx := Kept(ratings, f);
    KeptLayout(ratings, f);
    forall k | 0 <= k < |kept| ensures kept[k] == ratings[idx[k]] && CountOf(ratings, kept[k].movieId) >= MinRatings {
      assert f(ratings[idx[k]]) == Some(kept[k]);
    }
    forall j | 0 <= j < |ratings| && CountOf(ratings, ratings[j].movieId) >= MinRatings ensures j in idx {
      assert f(ratings[j]).Some?;
    }
    forall m ensures CountOf(kept, m) == if CountOf(ratings, m) >= MinRatings then CountOf(ratings, m) else 0 {
      CountAfterFilter(ratings, ratings, m);
    }
  }

  /** The position of the first occurrence of `x` in `xs`. */
  function FirstIndexOf(xs: seq<int>, x: int): (i: nat)
    requires x in xs
    ensures i < |xs| && xs[i] == x
    ensures forall j :: 0 <= j < i ==> xs[j] != x
  {
    if xs[0] == x then 0 else 1 + FirstIndexOf(xs[1..], x)
  }

  /** `Series.unique()`: each distinct value once. */
  function Unique(xs: seq<int>): (u: seq<int>)
    ensures Distinct(u)
    ensures forall x :: x in u <==> x in xs
  {
    if |xs| == 0 then []
    else
      var init, last := xs[..|xs| - 1], xs[|xs| - 1];
      var prev := Unique(init);
      if last in init then prev
      else
        assert forall x :: x in xs <==> x in init || x == last by {
          assert xs == init + [last];
        }
        prev + [last]
  }

  /** Dropping the last value does not move a first occurrence before it. */
  lemma FirstIndexOfInit(xs: seq<int>, x: int)
    requires |xs| > 0 && x in xs[..|xs| - 1]
    ensures FirstIndexOf(xs, x) == FirstIndexOf(xs[..|xs| - 1], x)
  {
    var init := xs[..|xs| - 1];
    var a, b := FirstIndexOf(xs, x), FirstIndexOf(init, x);
    assert xs[b] == x;
    assert a <= b;
    assert init[a] == x;
  }

  /** `u` lists its values in order of their first appearance in `xs`. */
  ghost predicate InFirstOrder(xs: seq<int>, u: seq<int>)
    requires forall x :: x in u ==> x in xs
  {
    forall k, l :: 0 <= k < l < |u| ==> FirstIndexOf(xs, u[k]) < FirstIndexOf(xs, u[l])
  }

  /** The values of `Series.unique()` come in order of first appearance. */
  lemma {:induction false} UniqueInFirstOrder(xs: seq<int>)
    ensures InFirstOrder(xs, Unique(xs))
    decreases |xs|
  {
    if |xs| > 0 {
      var init, last := xs[..|xs| - 1], xs[|xs| - 1];
      var prev := Unique(init);
      UniqueInFirstOrder(init);
      assert InFirstOrder(init, prev);
      var u := Unique(xs);
      if last in init {
        assert u == prev;
        forall k, l | 0 <= k < l < |u| ensures FirstIndexOf(xs, u[k]) < FirstIndexOf(xs, u[l]) {
          FirstIndexOfInit(xs, prev[k]);
          FirstIndexOfInit(xs, prev[l]);
        }
      } else {
        assert u == prev + [last];
        forall k, l | 0 <= k < l < |u| ensures FirstIndexOf(xs, u[k]) < FirstIndexOf(xs, u[l]) {
          assert u[k] == prev[k];
          FirstIndexOfInit(xs, prev[k]);
          if l < |prev| {
            assert u[l] == prev[l];
            FirstIndexOfInit(xs, prev[l]);
          } else {
            assert u[l] == last;
          }
        }
      }
    }
  }

  /** `{i: mid for mid, i in m.items()}`. */
  function Invert(m: map<int, nat>): (inv: map<nat, int>)
    requires forall a, b :: a in m && b in m && a != b ==> m[a] != m[b]
    ensures inv.Keys == m.Values
    ensures forall a :: a in m ==> inv[m[a]] == a
  {
    map a | a in m :: m[a] := a
  }

  /** `k = min(N_FACTORS, min(n_users, n_movies) - 1)`: the largest count
      below both dimensions that does not exceed `FactorLimit`. */
  function FactorCount(nUsers: nat, nMovies: nat): (k: int)
    ensures k <= FactorLimit && k < nUsers && k < nMovies
    ensures k == FactorLimit || k == nUsers - 1 || k == nMovies - 1
  {
    Min(FactorLimit, Min(nUsers, nMovies) - 1)
  }

  /** What `train_collaborative` derives before the factorisation. */
  datatype CfIndex = CfIndex(
    ratings: seq<Rating>,
    userToIdx: map<int, nat>,
    movieToIdx: map<int, nat>,
    idxToMovie: map<nat, int>,
    nUsers: nat,
    nMovies: nat,
    k: int)

  function TrainIndex(ratings: seq<Rating>): (ix: CfIndex)
    ensures ix.k == FactorCount(ix.nUsers, ix.nMovies)
  {
    var kept := Popular(ratings);
    var users, movies := Unique(UserIdsOf(kept)), Unique(MovieIdsOf(kept));
    CfIndex(kept, IndexOf(users), IndexOf(movies), Invert(IndexOf(movies)), |users|, |movies|, FactorCount(|users|, |movies|))
  }

  /** Enumerating a list without repeats maps its elements one to one onto
      the positions `0..|u|-1`, and the inverted map sends each position
      back to its element. */
  lemma EnumerationBijective(u: seq<int>)
    requires Distinct(u)
    ensures forall x :: x in IndexOf(u) <==> x in u
    ensures forall i :: i in IndexOf(u).Values <==> 0 <= i < |u|
    ensures forall i :: i in Invert(IndexOf(u)) <==> 0 <= i < |u|
    ensures forall i :: 0 <= i < |u| ==> Invert(IndexOf(u))[i] == u[i] && IndexOf(u)[u[i]] == i
  {
    var m := IndexOf(u);
    IndexOfInverse(u);
    forall i | 0 <= i < |u| ensures i in m.Values {
      assert m[u[i]] == i;
    }
  }

  /** `movie_to_idx` maps the movies of the filtered ratings one to one onto
      the rows `0..n_movies-1`. */
  lemma MovieIndexDense(ratings: seq<Rating>)
    ensures var ix := TrainIndex(ratings);
      && (forall m :: m in ix.movieToIdx <==> m in MovieIdsOf(ix.ratings))
      && (forall i :: i in ix.movieToIdx.Values <==> 0 <= i < ix.nMovies)
      && (forall i :: i in ix.idxToMovie <==> 0 <= i < ix.nMovies)
  {
    var ix := TrainIndex(ratings);
    var movies := Unique(MovieIdsOf(Popular(ratings)));
    assert ix.ratings == Popular(ratings) && ix.nMovies == |movies|;
    assert ix.movieToIdx == IndexOf(movies) && ix.idxToMovie == Invert(IndexOf(movies));
    EnumerationBijective(movies);
  }

  /** `idx_to_movie` is the inverse of `movie_to_idx` on every row and every
      movie. */
  lemma MovieIndexInverse(ratings: seq<Rating>)
    ensures var ix := TrainIndex(ratings);
      && (forall i :: i in ix.idxToMovie ==> ix.idxToMovie[i] in ix.movieToIdx && ix.movieToIdx[ix.idxToMovie[i]] == i)
      && (forall m :: m in ix.movieToIdx ==> ix.idxToMovie[ix.movieToIdx[m]] == m)
  {
    var ix := TrainIndex(ratings);
    var movies := Unique(MovieIdsOf(Popular(ratings)));
    assert ix.movieToIdx == IndexOf(movies) && ix.idxToMovie == Invert(IndexOf(movies));
    EnumerationBijective(movies);
    forall i | i in ix.idxToMovie ensures ix.idxToMovie[i] in ix.movieToIdx && ix.movieToIdx[ix.idxToMovie[i]] == i {
      assert ix.idxToMovie[i] == movies[i];
    }
  }

  /** `user_to_idx` maps the users of the filtered ratings one to one onto
      `0..n_users-1`. */
  lemma UserIndexDense(ratings: seq<Rating>)
    ensures var ix := TrainIndex(ratings);
      && (forall u :: u in ix.userToIdx <==> u in UserIdsOf(ix.ratings))
      && (forall i :: i in ix.userToIdx.Values <==> 0 <= i < ix.nUsers)
  {
    var ix := TrainIndex(ratings);
    var users := Unique(UserIdsOf(Popular(ratings)));
    assert ix.ratings == Popular(ratings) && ix.nUsers == |users| && ix.userToIdx == IndexOf(users);
    EnumerationBijective(users);
  }
}
