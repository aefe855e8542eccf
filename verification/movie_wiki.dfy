/**
 The movie origin filter: keep, in order, the movies whose origin ethnicity
 equals the requested one. A movie is reduced to what the filter reads plus
 its title. The origin record is mandatory; its ethnicity may be missing.
 */
module MovieWiki {

  /** An ethnicity as the filter reads it: `Missing` when the origin record
      has no "Ethnicity" key or holds null there, which the lookup turns into
      `None`. */
  datatype Ethnicity = Missing | Named(name: string)

  datatype Origin = Origin(ethnicity: Ethnicity)

  datatype Movie = Movie(title: string, origin: Origin)

  /** The filter's test: the movie's ethnicity equals the requested one. */
  predicate From(m: Movie, origin: Ethnicity)
  {
    m.origin.ethnicity == origin
  }

  /** The movies of `movies` from `origin`, in their original order. */
  function Classify(movies: seq<Movie>, origin: Ethnicity): (r: seq<Movie>)
    ensures |r| <= |movies|
    ensures forall k :: 0 <= k < |r| ==> From(r[k], origin)
  {
    if |movies| == 0 then []
    else (if From(movies[0], origin) then [movies[0]] else []) + Classify(movies[1..], origin)
  }

  /** A movie without an ethnicity is never kept when a named origin is asked for. */
  lemma MissingNeverNamed(movies: seq<Movie>, name: string, m: Movie)
    requires m.origin.ethnicity == Missing
    ensures m !in Classify(movies, Named(name))
  {
  }

  /** `a` is `b` with some elements removed, the rest in the same order. */
  predicate IsSubsequence<T(==)>(a: seq<T>, b: seq<T>)
    decreases |b|
  {
    if |a| == 0 then true
    else if |b| == 0 then false
    else if a[0] == b[0] then IsSubsequence(a[1..], b[1..])
    else IsSubsequence(a, b[1..])
  }

  /** Filtering distributes over concatenation. */
  lemma {:induction false} ClassifyAppend(a: seq<Movie>, b: seq<Movie>, origin: Ethnicity)
    ensures Classify(a + b, origin) == Classify(a, origin) + Classify(b, origin)
    decreases |a|
  {
    if |a| > 0 {
      assert (a + b)[1..] == a[1..] + b;
      ClassifyAppend(a[1..], b, origin);
    } else {
      assert a + b == b;
    }
  }

  /** The result keeps the input's order: it is a subsequence of it. */
  lemma {:induction false} ClassifyIsSubsequence(movies: seq<Movie>, origin: Ethnicity)
    ensures IsSubsequence(Classify(movies, origin), movies)
    decreases |movies|
  {
    if |movies| > 0 {
      var rest := Classify(movies[1..], origin);
      ClassifyIsSubsequence(movies[1..], origin);
      if From(movies[0], origin) {
        assert Classify(movies, origin) == [movies[0]] + rest;
        assert ([movies[0]] + rest)[1..] == rest;
      } else {
        assert Classify(movies, origin) == rest;
        SubsequenceOfTail(rest, movies);
      }
    }
  }

  /** A subsequence of the tail is a subsequence of the whole. */
  lemma {:induction false} SubsequenceOfTail<T>(a: seq<T>, b: seq<T>)
    requires |b| > 0
    requires IsSubsequence(a, b[1..])
    ensures IsSubsequence(a, b)
    decreases |b|, 0
  {
    if |a| > 0 && a[0] == b[0] {
      DropHead(a, b[1..]);
    }
  }

  /** Dropping the head of a non-empty subsequence keeps a subsequence. */
  lemma {:induction false} DropHead<T>(a: seq<T>, b: seq<T>)
    requires |a| > 0
    requires IsSubsequence(a, b)
    ensures IsSubsequence(a[1..], b)
    decreases |b|, 1
  {
    assert |b| > 0;
    if a[0] == b[0] {
      SubsequenceOfTail(a[1..], b);
    } else {
      DropHead(a, b[1..]);
      SubsequenceOfTail(a[1..], b);
    }
  }

  /** Each movie occurs in the result exactly as often as in the input when it
      is from `origin`, and not at all otherwise. */
  lemma {:induction false} ClassifyCounts(movies: seq<Movie>, origin: Ethnicity, m: Movie)
    ensures multiset(Classify(movies, origin))[m]
            == if From(m, origin) then multiset(movies)[m] else 0
    decreases |movies|
  {
    if |movies| > 0 {
      var x, tail := movies[0], movies[1..];
      var rest := Classify(tail, origin);
      ClassifyCounts(tail, origin, m);
      assert movies == [x] + tail;
      CountCons(x, tail, m);
      if From(x, origin) {
        assert Classify(movies, origin) == [x] + rest;
        CountCons(x, rest, m);
      } else {
        assert Classify(movies, origin) == rest;
      }
    }
  }

  /** Putting `x` in front adds one occurrence of `x` and none of anything else. */
  lemma CountCons<T>(x: T, s: seq<T>, m: T)
    ensures multiset([x] + s)[m] == (if x == m then 1 else 0) + multiset(s)[m]
  {
  }

  /** Soundness and completeness: the result holds exactly the input's movies
      from `origin`. */
  lemma ClassifyMembers(movies: seq<Movie>, origin: Ethnicity, m: Movie)
    ensures m in Classify(movies, origin) <==> m in movies && From(m, origin)
  {
  }

  /** Filtering twice by the same origin is filtering once. */
  lemma {:induction false} ClassifyIdempotent(movies: seq<Movie>, origin: Ethnicity)
    ensures Classify(Classify(movies, origin), origin) == Classify(movies, origin)
    decreases |movies|
  {
    if |movies| > 0 {
      var rest := Classify(movies[1..], origin);
      ClassifyIdempotent(movies[1..], origin);
      if From(movies[0], origin) {
        var kept := [movies[0]] + rest;
        assert Classify(movies, origin) == kept;
        assert kept[0] == movies[0] && kept[1..] == rest;
        assert Classify(kept, origin) == [movies[0]] + Classify(rest, origin);
      } else {
        assert Classify(movies, origin) == rest;
      }
    }
  }

  /** A single movie is kept exactly when it is from `origin`. */
  lemma ClassifyOne(m: Movie, origin: Ethnicity)
    ensures Classify([m], origin) == if From(m, origin) then [m] else []
  {
  }

  /** The list comprehension, run as a loop over the input. */
  method ClassifyLoop(movies: seq<Movie>, origin: Ethnicity) returns (r: seq<Movie>)
    ensures r == Classify(movies, origin)
  {
    r := [];
    var i := 0;
    while i < |movies|
      invariant 0 <= i <= |movies|
      invariant r == Classify(movies[..i], origin)
    {
      assert movies[..i + 1] == movies[..i] + [movies[i]];
      ClassifyAppend(movies[..i], [movies[i]], origin);
      ClassifyOne(movies[i], origin);
      if From(movies[i], origin) {
        r := r + [movies[i]];
      }
      i := i + 1;
    }
    assert movies[..i] == movies;
  }
}
