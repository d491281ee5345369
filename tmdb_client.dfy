/** The deterministic side of the TMDB client: the Discover query built
    from mood filters, the shape of enriched movie records and the
    subscription-provider list. Every HTTP response is a parameter. */
module TmdbClient {
  import opened Common

  const ImageBase: string := "https://image.tmdb.org/t/p"

  /** TMDB's genre ids and names. */
  const GenreIdToName: map<int, string> := map[
    28 := "Action", 12 := "Adventure", 16 := "Animation", 35 := "Comedy",
    80 := "Crime", 99 := "Documentary", 18 := "Drama", 10751 := "Family",
    14 := "Fantasy", 36 := "History", 27 := "Horror", 10402 := "Music",
    9648 := "Mystery", 10749 := "Romance", 878 := "Science Fiction",
    53 := "Thriller", 10752 := "War", 37 := "Western"]

  /** The mood parser's table from genre names to TMDB genre ids. */
  const GenreMap: map<string, int> := map[
    "Action" := 28, "Adventure" := 12, "Animation" := 16, "Comedy" := 35,
    "Crime" := 80, "Documentary" := 99, "Drama" := 18, "Family" := 10751,
    "Fantasy" := 14, "History" := 36, "Horror" := 27, "Music" := 10402,
    "Mystery" := 9648, "Romance" := 10749, "Science Fiction" := 878,
    "Thriller" := 53, "War" := 10752, "Western" := 37]

  /** Every TMDB genre id is named in the mood parser's table under the
      same id. */
  lemma GenreIdRoundTrip(id: int)
    requires id in GenreIdToName
    ensures GenreIdToName[id] in GenreMap && GenreMap[GenreIdToName[id]] == id
  {
  }

  /** Every genre name of the mood parser's table comes back from its id. */
  lemma GenreNameRoundTrip(name: string)
    requires name in GenreMap
    ensures GenreMap[name] in GenreIdToName && GenreIdToName[GenreMap[name]] == name
  {
  }

  /** The two tables are inverse to each other on their whole domains. */
  lemma GenreTablesInverse()
    ensures forall id :: id in GenreIdToName ==> GenreIdToName[id] in GenreMap && GenreMap[GenreIdToName[id]] == id
    ensures forall name :: name in GenreMap ==> GenreMap[name] in GenreIdToName && GenreIdToName[GenreMap[name]] == name
  {
    forall id | id in GenreIdToName ensures GenreIdToName[id] in GenreMap && GenreMap[GenreIdToName[id]] == id {
      GenreIdRoundTrip(id);
    }
    forall name | name in GenreMap ensures GenreMap[name] in GenreIdToName && GenreIdToName[GenreMap[name]] == name {
      GenreNameRoundTrip(name);
    }
  }

  // ---------------------------------------------------------------------------
  // Discover

  /** A filter value as the mood parser produces it (JSON). */
  datatype Value = Null | Int(i: int) | Num(r: real) | Str(s: string)

  /** Python truthiness of a filter value. */
  predicate Truthy(v: Value)
  {
    match v
    case Null => false
    case Int(i) => i != 0
    case Num(r) => r != 0.0
    case Str(s) => s != ""
  }

  /** The parameters every Discover query carries. */
  const Defaults: map<string, Value> := map[
    "include_adult" := Str("false"), "include_video" := Str("false"),
    "language" := Str("en-US"), "page" := Int(1)]

  /** Filter keys and the TMDB parameter names they are sent under. */
  const ParamMapping: seq<(string, string)> := [
    ("with_genres", "with_genres"),
    ("vote_average_gte", "vote_average.gte"),
    ("with_runtime_gte", "with_runtime.gte"),
    ("with_runtime_lte", "with_runtime.lte"),
    ("sort_by", "sort_by"),
    ("release_date_gte", "primary_release_date.gte"),
    ("release_date_lte", "primary_release_date.lte"),
    ("with_watch_providers", "with_watch_providers")]

  const MinVoteCount: int := 50

  /** The TMDB names of the mapping are distinct from each other and from
      the other parameters the query sets. */
  lemma MappingNamesDistinct()
    ensures forall j, l :: 0 <= j < l < |ParamMapping| ==> ParamMapping[j].1 != ParamMapping[l].1
    ensures forall j :: 0 <= j < |ParamMapping| ==>
      ParamMapping[j].1 !in Defaults && ParamMapping[j].1 != "watch_region" && ParamMapping[j].1 != "vote_count.gte"
  {
  }

  /** `params` is the query `discover_movies` sends for `filters`: the
      defaults; `watch_region` "US" exactly when `with_watch_providers` is
      truthy; each mapped filter that is present and not null, under its
      TMDB name; a vote-count floor of 50; and nothing else. */
  ghost predicate IsDiscoverQuery(filters: map<string, Value>, params: map<string, Value>)
  {
    && (forall k :: k in Defaults ==> k in params && params[k] == Defaults[k])
    && "vote_count.gte" in params && params["vote_count.gte"] == Int(MinVoteCount)
    && ("watch_region" in params <==> "with_watch_providers" in filters && Truthy(filters["with_watch_providers"]))
    && ("watch_region" in params ==> params["watch_region"] == Str("US"))
    && (forall j :: 0 <= j < |ParamMapping| ==>
          (ParamMapping[j].1 in params <==> ParamMapping[j].0 in filters && filters[ParamMapping[j].0] != Null))
    && (forall j :: 0 <= j < |ParamMapping| && ParamMapping[j].1 in params ==>
          params[ParamMapping[j].1] == filters[ParamMapping[j].0])
    && (forall k :: k in params ==>
          k in Defaults || k == "watch_region" || k == "vote_count.gte" ||
          exists j :: 0 <= j < |ParamMapping| && ParamMapping[j].1 == k)
  }

  /** The description leaves nothing open: one query per filter dictionary. */
  lemma DiscoverQueryUnique(filters: map<string, Value>, p: map<string, Value>, q: map<string, Value>)
    requires IsDiscoverQuery(filters, p) && IsDiscoverQuery(filters, q)
    ensures p == q
  {
    MappingNamesDistinct();
    forall k | k in p ensures k in q && p[k] == q[k] {
      if k !in Defaults && k != "watch_region" && k != "vote_count.gte" {
        var j :| 0 <= j < |ParamMapping| && ParamMapping[j].1 == k;
      }
    }
    forall k | k in q ensures k in p {
      if k !in Defaults && k != "watch_region" && k != "vote_count.gte" {
        var j :| 0 <= j < |ParamMapping| && ParamMapping[j].1 == k;
      }
    }
  }

  /** The parameter construction of `discover_movies`. */
  method DiscoverParams(filters: map<string, Value>) returns (params: map<string, Value>)
    ensures IsDiscoverQuery(filters, params)
  {
    MappingNamesDistinct();
    params := Defaults;
    if "with_watch_providers" in filters && Truthy(filters["with_watch_providers"]) {
      params := params["watch_region" := Str("US")];
    }
    var i := 0;
    while i < |ParamMapping|
      invariant 0 <= i <= |ParamMapping|
      invariant forall k :: k in Defaults ==> k in params && params[k] == Defaults[k]
      invariant "vote_count.gte" !in params
      invariant "watch_region" in params <==> "with_watch_providers" in filters && Truthy(filters["with_watch_providers"])
      invariant "watch_region" in params ==> params["watch_region"] == Str("US")
      invariant forall j :: 0 <= j < |ParamMapping| ==>
        (ParamMapping[j].1 in params <==> j < i && ParamMapping[j].0 in filters && filters[ParamMapping[j].0] != Null)
      invariant forall j :: 0 <= j < i && ParamMapping[j].1 in params ==> params[ParamMapping[j].1] == filters[ParamMapping[j].0]
      invariant forall k :: k in params ==>
        k in Defaults || k == "watch_region" || exists j :: 0 <= j < i && ParamMapping[j].1 == k
    {
      var (ourKey, tmdbKey) := ParamMapping[i];
      if ourKey in filters && filters[ourKey] != Null {
        params := params[tmdbKey := filters[ourKey]];
      }
      i := i + 1;
    }
    params := params["vote_count.gte" := Int(MinVoteCount)];
  }

  /** A movie as the Discover endpoint lists it; a missing field is `None`
      or empty. */
  datatype DiscoverItem = DiscoverItem(id: int, title: Option<string>, genreIds: seq<int>)

  /** `discover_movies`: `endpoint` is what the Discover endpoint answers
      for a query; the answer is cut to `limit`. */
  method DiscoverMovies(filters: map<string, Value>, limit: nat, endpoint: map<string, Value> -> seq<DiscoverItem>)
    returns (params: map<string, Value>, results: seq<DiscoverItem>)
    ensures IsDiscoverQuery(filters, params)
    ensures |results| == Min(limit, |endpoint(params)|) && results <= endpoint(params)
  {
    params := DiscoverParams(filters);
    results := Take(endpoint(params), limit);
  }

  // ---------------------------------------------------------------------------
  // Watch providers

  /** A provider as the watch-providers endpoint lists it. */
  datatype ProviderEntry = ProviderEntry(providerName: string, logoPath: Option<string>)

  datatype Provider = Provider(name: string, logoUrl: Option<string>)

  /** The endpoint's `results`: per region, per offer kind ("flatrate",
      "rent", "buy"), the providers. */
  type WatchResults = map<string, map<string, seq<ProviderEntry>>>

  function LogoUrl(e: ProviderEntry): (u: Option<string>)
    ensures u.None? <==> e.logoPath.None? || e.logoPath.value == ""
    ensures u.Some? ==> u.value == ImageBase + "/w92" + e.logoPath.value
  {
    if e.logoPath.Some? && e.logoPath.value != "" then Some(ImageBase + "/w92" + e.logoPath.value) else None
  }

  /** `get_watch_providers`: the subscription providers of `region`, empty
      when the region or its "flatrate" list is absent. */
  function GetWatchProviders(results: WatchResults, region: string): (ps: seq<Provider>)
    ensures region !in results || "flatrate" !in results[region] ==> ps == []
    ensures region in results && "flatrate" in results[region] ==>
      var flat := results[region]["flatrate"];
      |ps| == |flat| && forall i :: 0 <= i < |flat| ==> ps[i] == Provider(flat[i].providerName, LogoUrl(flat[i]))
  {
    var flat := if region in results && "flatrate" in results[region] then results[region]["flatrate"] else [];
    seq(|flat|, i requires 0 <= i < |flat| => Provider(flat[i].providerName, LogoUrl(flat[i])))
  }

  /** A logo URL determines the logo path it was built from. */
  lemma LogoUrlInjective(a: ProviderEntry, b: ProviderEntry)
    requires LogoUrl(a).Some? && LogoUrl(a) == LogoUrl(b)
    ensures a.logoPath == b.logoPath
  {
    var prefix := ImageBase + "/w92";
    assert LogoUrl(a).value == prefix + a.logoPath.value;
    assert LogoUrl(b).value == prefix + b.logoPath.value;
    assert a.logoPath.value == (prefix + a.logoPath.value)[|prefix|..];
    assert b.logoPath.value == (prefix + b.logoPath.value)[|prefix|..];
  }

  // ---------------------------------------------------------------------------
  // Enrichment

  /** What `/movie/{id}` answers; a missing field is `None`. */
  datatype MovieDetails = MovieDetails(
    title: Option<string>,
    voteAverage: Option<real>,
    runtime: Option<int>,
    releaseDate: Option<string>,
    overview: Option<string>,
    posterPath: Option<string>)

  /** An enriched movie record; `providers` is `None` when the key is absent. */
  datatype Movie = Movie(
    id: int,
    title: string,
    genres: seq<string>,
    rating: real,
    runtime: int,
    releaseYear: string,
    overview: string,
    posterUrl: Option<string>,
    providers: Option<seq<Provider>>)

  function GenreName(gid: int): string
  {
    if gid in GenreIdToName then GenreIdToName[gid] else "Unknown"
  }

  /** "Unknown" stands exactly for the ids outside the genre table. */
  lemma UnknownOnlyForUnmapped(gid: int)
    ensures GenreName(gid) == "Unknown" <==> gid !in GenreIdToName
  {
  }

  function OrElse<T>(o: Option<T>, d: T): T
  {
    match o case Some(v) => v case None => d
  }

  /** The record `enrich_movies` builds for one Discover item before the
      providers are added: the details' title, else the Discover title;
      genre names from the table; the first four characters of the
      release date; a poster URL only for a non-empty poster path. */
  function Shape(item: DiscoverItem, d: MovieDetails): (m: Movie)
    ensures m.id == item.id && m.providers.None?
    ensures |m.genres| == |item.genreIds| && forall i :: 0 <= i < |item.genreIds| ==> m.genres[i] == GenreName(item.genreIds[i])
    ensures var date := OrElse(d.releaseDate, ""); |m.releaseYear| == Min(4, |date|) && m.releaseYear <= date
    ensures m.posterUrl.None? <==> d.posterPath.None? || d.posterPath.value == ""
    ensures m.posterUrl.Some? ==> m.posterUrl.value == ImageBase + "/w500" + d.posterPath.value
    ensures d.title.Some? ==> m.title == d.title.value
    ensures d.title.None? ==> m.title == OrElse(item.title, "")
  {
    Movie(
      item.id,
      OrElse(d.title, OrElse(item.title, "")),
      seq(|item.genreIds|, i requires 0 <= i < |item.genreIds| => GenreName(item.genreIds[i])),
      OrElse(d.voteAverage, 0.0),
      OrElse(d.runtime, 0),
      Take(OrElse(d.releaseDate, ""), 4),
      OrElse(d.overview, ""),
      if d.posterPath.Some? && d.posterPath.value != "" then Some(ImageBase + "/w500" + d.posterPath.value) else None,
      None)
  }

  /** `enrich_movies`: `details` and `watch` are what the details and the
      watch-providers endpoints answer for an id. One record per item, in
      order; providers (for the US) are attached exactly when asked for. */
  method EnrichMovies(items: seq<DiscoverItem>, includeProviders: bool, details: int -> MovieDetails, watch: int -> WatchResults)
    returns (enriched: seq<Movie>)
    ensures |enriched| == |items|
    ensures forall i :: 0 <= i < |items| ==>
      enriched[i] == Shape(items[i], details(items[i].id)).(
        providers := if includeProviders then Some(GetWatchProviders(watch(items[i].id), "US")) else None)
    ensures forall i :: 0 <= i < |items| ==> (enriched[i].providers.Some? <==> includeProviders)
  {
    enriched := [];
    var i := 0;
    while i < |items|
      invariant 0 <= i <= |items|
      invariant |enriched| == i
      invariant forall j :: 0 <= j < i ==>
        enriched[j] == Shape(items[j], details(items[j].id)).(
          providers := if includeProviders then Some(GetWatchProviders(watch(items[j].id), "US")) else None)
    {
      var movie := items[i];
      var entry := Shape(movie, details(movie.id));
      if includeProviders {
        entry := entry.(providers := Some(GetWatchProviders(watch(movie.id), "US")));
      }
      enriched := enriched + [entry];
      i := i + 1;
    }
  }
}
