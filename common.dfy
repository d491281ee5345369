/** Values shared by the recommendation engine: candidate records, Python
    dictionary construction with last-write-wins semantics, slicing and the
    ranking that numpy's `argsort()[::-1]` produces. */
module Common {

  datatype Option<T> = None | Some(value: T)

  /** A recommendation candidate: an external (TMDB) id and a similarity score. */
  datatype Rec = Rec(tmdbId: int, score: real)

  function Min(a: int, b: int): int { if a <= b then a else b }

  /** `range(n)` as a list: position `i` holds `i`. */
  function Range(n: nat): (r: seq<nat>)
    ensures |r| == n
    ensures forall i :: 0 <= i < n ==> r[i] == i
  {
    seq(n, i => i)
  }

  /** The TMDB ids of a list of candidates, in list order. */
  function Ids(recs: seq<Rec>): (ids: seq<int>)
    ensures |ids| == |recs|
    ensures forall i :: 0 <= i < |recs| ==> ids[i] == recs[i].tmdbId
  {
    seq(|recs|, i requires 0 <= i < |recs| => recs[i].tmdbId)
  }

  /** The ids of a concatenation are the concatenated ids. */
  lemma IdsConcat(a: seq<Rec>, b: seq<Rec>)
    ensures Ids(a + b) == Ids(a) + Ids(b)
  {
  }

  /** The scores of a list of candidates, in list order. */
  function Scores(recs: seq<Rec>): (scores: seq<real>)
    ensures |scores| == |recs|
    ensures forall i :: 0 <= i < |recs| ==> scores[i] == recs[i].score
  {
    seq(|recs|, i requires 0 <= i < |recs| => recs[i].score)
  }

  ghost predicate NonIncreasing(recs: seq<Rec>)
  {
    forall i, j :: 0 <= i < j < |recs| ==> recs[i].score >= recs[j].score
  }

  ghost predicate Distinct<T>(s: seq<T>)
  {
    forall i, j :: 0 <= i < j < |s| ==> s[i] != s[j]
  }

  /** The position of the last occurrence of `k` in `keys`. */
  function LastIndexOf<K(==)>(keys: seq<K>, k: K): (i: nat)
    requires k in keys
    ensures i < |keys| && keys[i] == k
    ensures forall j :: i < j < |keys| ==> keys[j] != k
  {
    if keys[|keys| - 1] == k then |keys| - 1 else LastIndexOf(keys[..|keys| - 1], k)
  }

  /** `dict(zip(keys, vals))`: a key that occurs several times keeps the value
      of its last occurrence. */
  function ZipMap<K(==), V>(keys: seq<K>, vals: seq<V>): (m: map<K, V>)
    requires |keys| == |vals|
    ensures m.Keys == set k | k in keys
    ensures forall k :: k in m ==> m[k] == vals[LastIndexOf(keys, k)]
  {
    if |keys| == 0 then map[]
    else
      var m' := ZipMap(keys[..|keys| - 1], vals[..|vals| - 1]);
      assert forall k :: k in keys[..|keys| - 1] ==> k in keys;
      assert forall k :: k in keys ==> k in keys[..|keys| - 1] || k == keys[|keys| - 1];
      m'[keys[|keys| - 1] := vals[|vals| - 1]]
  }

  /** Without repeated keys, every row's key maps to that row's value. */
  lemma ZipMapDistinct<K, V>(keys: seq<K>, vals: seq<V>, i: nat)
    requires |keys| == |vals| && Distinct(keys) && i < |keys|
    ensures keys[i] in ZipMap(keys, vals) && ZipMap(keys, vals)[keys[i]] == vals[i]
  {
  }

  /** `s[:n]` for a non-negative `n`. */
  function Take<T>(s: seq<T>, n: nat): (r: seq<T>)
    ensures |r| == Min(n, |s|)
    ensures r == s[..|r|]
  {
    if n <= |s| then s[..n] else s
  }

  /** `order` is what `scores.argsort()[::-1]` yields: a permutation of the
      row indices along which the scores never increase. numpy's default
      sort is not stable, so the order among equal scores is not fixed. */
  ghost predicate IsArgsortDesc(order: seq<nat>, scores: seq<real>)
  {
    && |order| == |scores|
    && (forall k :: 0 <= k < |order| ==> order[k] < |scores|)
    && (forall k, l :: 0 <= k < l < |order| ==> order[k] != order[l])
    && (forall k, l :: 0 <= k < l < |order| ==> scores[order[k]] >= scores[order[l]])
    && (forall i :: 0 <= i < |scores| ==> i in order)
  }

  /** `order[1:n+1]`: the next `n` rows after the top-ranked one. */
  function SelectRows(order: seq<nat>, n: nat): (rows: seq<nat>)
    ensures |rows| == if |order| == 0 then 0 else Min(n, |order| - 1)
    ensures forall k :: 0 <= k < |rows| ==> rows[k] == order[k + 1]
  {
    if |order| == 0 then [] else order[1..Min(n + 1, |order|)]
  }

  /** The selected rows keep the ranking: they are distinct rows, in
      non-increasing score order, and none of them is the top-ranked row. */
  lemma SelectRowsRanked(order: seq<nat>, scores: seq<real>, n: nat)
    requires IsArgsortDesc(order, scores)
    ensures var rows := SelectRows(order, n);
      && (forall k :: 0 <= k < |rows| ==> rows[k] < |scores|)
      && Distinct(rows)
      && (forall k, l :: 0 <= k < l < |rows| ==> scores[rows[k]] >= scores[rows[l]])
      && (|order| > 0 ==> order[0] !in rows)
  {
    var rows := SelectRows(order, n);
    forall k, l | 0 <= k < l < |rows| ensures rows[k] != rows[l] && scores[rows[k]] >= scores[rows[l]] {
      assert rows[k] == order[k + 1] && rows[l] == order[l + 1];
    }
    if |order| > 0 {
      forall k | 0 <= k < |rows| ensures rows[k] != order[0] {
        assert rows[k] == order[k + 1];
      }
    }
  }

  /** Inserting row `i` after every row that scores at least as high keeps
      the rows distinct and the scores non-increasing. */
  lemma InsertRanked(order: seq<nat>, scores: seq<real>, p: nat, i: nat)
    requires i < |scores| && |order| == i && p <= |order|
    requires forall k :: 0 <= k < |order| ==> order[k] < i
    requires forall k, l :: 0 <= k < l < |order| ==> order[k] != order[l]
    requires forall k, l :: 0 <= k < l < |order| ==> scores[order[k]] >= scores[order[l]]
    requires forall k :: 0 <= k < p ==> scores[order[k]] >= scores[i]
    requires p < |order| ==> scores[order[p]] < scores[i]
    ensures var next := order[..p] + [i] + order[p..];
      && |next| == i + 1
      && (forall k :: 0 <= k < |next| ==> next[k] < i + 1)
      && (forall k, l :: 0 <= k < l < |next| ==> next[k] != next[l])
      && (forall k, l :: 0 <= k < l < |next| ==> scores[next[k]] >= scores[next[l]])
  {
    var next := order[..p] + [i] + order[p..];
    assert forall k :: 0 <= k < p ==> next[k] == order[k];
    assert next[p] == i;
    assert forall k :: p < k < |next| ==> next[k] == order[k - 1];
    forall k, l | 0 <= k < l < |next|
      ensures next[k] != next[l] && scores[next[k]] >= scores[next[l]]
    {
      if l == p {
        assert next[k] == order[k];
      } else if k == p {
        assert next[l] == order[l - 1];
        assert scores[order[p]] >= scores[order[l - 1]] || l - 1 == p;
      } else if l < p {
        assert next[k] == order[k] && next[l] == order[l];
      } else if k < p {
        assert next[k] == order[k] && next[l] == order[l - 1];
      } else {
        assert next[k] == order[k - 1] && next[l] == order[l - 1];
      }
    }
  }

  /** Inserting row `i` into a ranking of rows `0..i-1` covers rows `0..i`. */
  lemma InsertCovers(order: seq<nat>, p: nat, i: nat)
    requires p <= |order|
    requires forall j :: 0 <= j < i ==> j in order
    ensures forall j :: 0 <= j < i + 1 ==> j in order[..p] + [i] + order[p..]
  {
    var next := order[..p] + [i] + order[p..];
    assert order == order[..p] + order[p..];
    assert multiset(next) == multiset(order) + multiset{i};
    forall j | 0 <= j < i + 1 ensures j in next {
      if j < i {
        assert j in order;
        assert j in multiset(order);
      }
    }
  }

  /** One ranking for every score vector: an insertion sort of the row
      indices by descending score. */
  method ArgsortDesc(scores: seq<real>) returns (order: seq<nat>)
    ensures IsArgsortDesc(order, scores)
  {
    order := [];
    var i := 0;
    while i < |scores|
      invariant 0 <= i <= |scores|
      invariant |order| == i
      invariant forall k :: 0 <= k < |order| ==> order[k] < i
      invariant forall k, l :: 0 <= k < l < |order| ==> order[k] != order[l]
      invariant forall k, l :: 0 <= k < l < |order| ==> scores[order[k]] >= scores[order[l]]
      invariant forall j :: 0 <= j < i ==> j in order
    {
      var p := 0;
      while p < |order| && scores[order[p]] >= scores[i]
        invariant 0 <= p <= |order|
        invariant forall k :: 0 <= k < p ==> scores[order[k]] >= scores[i]
      {
        p := p + 1;
      }
      var next := order[..p] + [i] + order[p..];
      InsertRanked(order, scores, p, i);
      InsertCovers(order, p, i);
      order := next;
      i := i + 1;
    }
  }

  /** A list comprehension with a condition, `[g(x) for x in s if c(x)]`:
      `f(x)` is `Some(g(x))` for a kept element and `None` for a dropped one. */
  function FilterMap<A, B>(s: seq<A>, f: A -> Option<B>): (r: seq<B>)
    ensures |r| <= |s|
  {
    if |s| == 0 then []
    else FilterMap(s[..|s| - 1], f) + (match f(s[|s| - 1]) case Some(b) => [b] case None => [])
  }

  /** Filtering a list that was built by appending is filtering the parts. */
  lemma {:induction false} FilterMapConcat<A, B>(a: seq<A>, b: seq<A>, f: A -> Option<B>)
    ensures FilterMap(a + b, f) == FilterMap(a, f) + FilterMap(b, f)
    decreases |b|
  {
    if |b| == 0 {
      assert a + b == a;
    } else {
      var b' := b[..|b| - 1];
      assert (a + b)[..|a + b| - 1] == a + b';
      assert (a + b)[|a + b| - 1] == b[|b| - 1];
      FilterMapConcat(a, b', f);
    }
  }

  /** Appending one element extends the filtered list by its image, if any. */
  lemma FilterMapAppend<A, B>(s: seq<A>, x: A, f: A -> Option<B>)
    ensures FilterMap(s + [x], f) == FilterMap(s, f) + (match f(x) case Some(b) => [b] case None => [])
  {
    assert (s + [x])[..|s|] == s;
  }

  /** The positions of `s` that `FilterMap` keeps, in increasing order. */
  ghost function Kept<A, B>(s: seq<A>, f: A -> Option<B>): (idx: seq<nat>)
    ensures |idx| == |FilterMap(s, f)|
    ensures forall k :: 0 <= k < |idx| ==> idx[k] < |s|
  {
    if |s| == 0 then []
    else if f(s[|s| - 1]).Some? then Kept(s[..|s| - 1], f) + [|s| - 1]
    else Kept(s[..|s| - 1], f)
  }

  /** The kept positions are strictly increasing, each yields the output at
      the same rank, and they cover every position whose element is kept.
      So the output is the order-preserving subsequence of the kept
      elements' images. */
  lemma {:induction false} KeptLayout<A, B>(s: seq<A>, f: A -> Option<B>)
    ensures var idx, r := Kept(s, f), FilterMap(s, f);
      && |idx| == |r|
      && (forall k :: 0 <= k < |idx| ==> idx[k] < |s| && f(s[idx[k]]) == Some(r[k]))
      && (forall k, l :: 0 <= k < l < |idx| ==> idx[k] < idx[l])
      && (forall j :: 0 <= j < |s| && f(s[j]).Some? ==> j in idx)
    decreases |s|
  {
    if |s| > 0 {
      var s' := s[..|s| - 1];
      KeptLayout(s', f);
      var idx', r' := Kept(s', f), FilterMap(s', f);
      var idx, r := Kept(s, f), FilterMap(s, f);
      assert forall j :: 0 <= j < |s'| ==> s'[j] == s[j];
      if f(s[|s| - 1]).Some? {
        assert idx == idx' + [|s| - 1] && r == r' + [f(s[|s| - 1]).value];
        forall k | 0 <= k < |idx| ensures idx[k] < |s| && f(s[idx[k]]) == Some(r[k]) {
          if k < |idx'| {
            assert idx[k] == idx'[k] && r[k] == r'[k];
          }
        }
      } else {
        assert idx == idx' && r == r';
      }
    }
  }

  /** An element of the output is the image of an element of the input, and
      every kept element's image is in the output. */
  lemma FilterMapMembers<A, B>(s: seq<A>, f: A -> Option<B>)
    ensures forall y :: y in FilterMap(s, f) ==> exists j :: 0 <= j < |s| && f(s[j]) == Some(y)
    ensures forall j :: 0 <= j < |s| && f(s[j]).Some? ==> f(s[j]).value in FilterMap(s, f)
  {
    var idx := Kept(s, f);
    var r := FilterMap(s, f);
    KeptLayout(s, f);
    forall y | y in r ensures exists j :: 0 <= j < |s| && f(s[j]) == Some(y) {
      var k :| 0 <= k < |r| && r[k] == y;
      assert f(s[idx[k]]) == Some(y);
    }
    forall j | 0 <= j < |s| && f(s[j]).Some? ensures f(s[j]).value in r {
      var k :| 0 <= k < |idx| && idx[k] == j;
    }
  }

  /** `{x: i for i, x in enumerate(ids)}`: each element maps to the
      position of its last occurrence. */
  function IndexOf(ids: seq<int>): (m: map<int, nat>)
    ensures m.Keys == set t | t in ids
    ensures forall t :: t in m ==> m[t] < |ids| && ids[m[t]] == t
    ensures forall t, j :: t in m && m[t] < j < |ids| ==> ids[j] != t
    ensures forall a, b :: a in m && b in m && a != b ==> m[a] != m[b]
  {
    var m := ZipMap(ids, Range(|ids|));
    assert forall t :: t in m ==> m[t] == LastIndexOf(ids, t);
    m
  }

  /** With no repeated element, the map is the inverse of the list. */
  lemma IndexOfInverse(ids: seq<int>)
    requires Distinct(ids)
    ensures forall i :: 0 <= i < |ids| ==> ids[i] in IndexOf(ids) && IndexOf(ids)[ids[i]] == i
  {
    forall i | 0 <= i < |ids| ensures ids[i] in IndexOf(ids) && IndexOf(ids)[ids[i]] == i {
      ZipMapDistinct(ids, Range(|ids|), i);
    }
  }

  /** `sep.join(parts)`. */
  function Join(sep: string, parts: seq<string>): (r: string)
    ensures |parts| == 0 ==> r == ""
    ensures |parts| > 0 ==> parts[0] <= r
  {
    if |parts| == 0 then ""
    else if |parts| == 1 then parts[0]
    else Join(sep, parts[..|parts| - 1]) + sep + parts[|parts| - 1]
  }

  /** With a non-empty separator, the joined string is empty exactly when
      there is nothing to join but empty strings, at most one of them. */
  lemma {:induction false} JoinEmptyIff(sep: string, parts: seq<string>)
    requires |sep| > 0
    ensures Join(sep, parts) == "" <==> |parts| == 0 || (|parts| == 1 && parts[0] == "")
  {
    if |parts| > 1 {
      assert |Join(sep, parts)| >= |sep|;
    }
  }

  /** An element within the first `n` positions survives `Take(s, n)`. */
  lemma TakeKeeps<T>(s: seq<T>, n: nat, p: nat)
    requires p < |s|
    ensures p < n ==> s[p] in Take(s, n)
  {
    if p < n {
      assert Take(s, n)[p] == s[p];
    }
  }

  /** Filtering a prefix of `s` gives the first `n` outputs of filtering all
      of `s` once it has produced `n` of them, or once the prefix is all of
      `s` and produced no more than `n`. */
  lemma FilterMapPrefixTake<A, B>(s: seq<A>, j: nat, f: A -> Option<B>, n: nat)
    requires j <= |s| && |FilterMap(s[..j], f)| <= n
    requires |FilterMap(s[..j], f)| == n || j == |s|
    ensures FilterMap(s[..j], f) == Take(FilterMap(s, f), n)
  {
    FilterMapConcat(s[..j], s[j..], f);
    assert s[..j] + s[j..] == s;
  }

  /** `[g(x) for x in xs]`, built by appending. */
  function MapSeq<A, B>(xs: seq<A>, g: A -> B): seq<B>
  {
    if |xs| == 0 then [] else MapSeq(xs[..|xs| - 1], g) + [g(xs[|xs| - 1])]
  }

  /** The image list has one entry per element, the image of the element at
      the same position. */
  lemma {:induction false} MapSeqAt<A, B>(xs: seq<A>, g: A -> B)
    ensures |MapSeq(xs, g)| == |xs|
    ensures forall i :: 0 <= i < |xs| ==> MapSeq(xs, g)[i] == g(xs[i])
    decreases |xs|
  {
    if |xs| > 0 {
      var init := xs[..|xs| - 1];
      MapSeqAt(init, g);
      assert forall i :: 0 <= i < |init| ==> init[i] == xs[i];
    }
  }
}
