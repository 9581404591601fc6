/** RecommendationSystem.cpp: the catalog `_rs`, an ordered map from movies
    to feature vectors, and the two recommendation algorithms over it. The
    catalog's methods take a user's ratings as a map, since they only read
    the user through get_ranks. std::sqrt is the constant `sqrt` fixed at
    construction. */
module Catalog {
  import opened Wrappers
  import opened Movies
  import opened OrderedMaps
  import opened Sums
  import opened Vectors
  import opened Selection
  import opened Ratings

  /** recommend_by_content scores an entry by its similarity to the
      preferences vector; a rated movie is skipped, which the scan treats as
      an undefined score. */
  function ContentScore(ranks: map<Movie, real>, pref: seq<real>, sqrt: real -> real): Entry<seq<real>> -> Option<real> {
    (e: Entry<seq<real>>) => if e.key in ranks then None else CosineSimilarity(e.val, pref, sqrt)
  }

  // Solver aid: the score lambda applied to one entry.
  lemma ContentScoreAt(ranks: map<Movie, real>, pref: seq<real>, sqrt: real -> real, e: Entry<seq<real>>)
    ensures ContentScore(ranks, pref, sqrt)(e) == if e.key in ranks then None else CosineSimilarity(e.val, pref, sqrt)
  {
  }

  /** The similarity map predict_movie_score fills: the rated movies of s,
      in order, each with its similarity to the target vector tv
      (calculate_similarity(target, rated)). */
  function RatedSimilarities(s: seq<Entry<seq<real>>>, ranks: map<Movie, real>, tv: seq<real>, sqrt: real -> real): seq<Entry<Option<real>>>
    decreases |s|
  {
    if s == [] then []
    else
      var p := RatedSimilarities(s[..|s| - 1], ranks, tv, sqrt);
      var e := s[|s| - 1];
      if e.key in ranks then p + [Entry(e.key, CosineSimilarity(tv, e.val, sqrt))] else p
  }

  /** Over a sorted catalog the filter is sorted and holds exactly the
      similarities of the rated catalog movies. */
  lemma {:induction false} RatedSimilaritiesSpec(s: seq<Entry<seq<real>>>, ranks: map<Movie, real>, tv: seq<real>, sqrt: real -> real)
    requires Sorted(s)
    ensures Sorted(RatedSimilarities(s, ranks, tv, sqrt))
    ensures ToMap(RatedSimilarities(s, ranks, tv, sqrt)) ==
      map m | m in ToMap(s) && m in ranks :: CosineSimilarity(tv, ToMap(s)[m], sqrt)
    decreases |s|
  {
    if s != [] {
      var p, e := s[..|s| - 1], s[|s| - 1];
      SortedInit(s);
      RatedSimilaritiesSpec(p, ranks, tv, sqrt);
      var f := RatedSimilarities(p, ranks, tv, sqrt);
      if e.key in ranks {
        BelowView(p, e.key);
        BelowView(f, e.key);
        var x := Entry(e.key, CosineSimilarity(tv, e.val, sqrt));
        SortedSnoc(f, x);
        ToMapSnoc(f, x);
      }
      RatedViewStep(ToMap(p), ToMap(f), e.key, e.val, ranks, tv, sqrt);
    }
  }

  /** The similarity map of predict_movie_score after one more rated movie x. */
  lemma SimilarityViewStep(M: map<Movie, Option<real>>, done: set<Movie>, x: Movie, features: map<Movie, seq<real>>,
                           tv: seq<real>, sqrt: real -> real, similarity: Option<real>)
    requires done <= features.Keys && x in features
    requires M == map m | m in done :: CosineSimilarity(tv, features[m], sqrt)
    requires similarity == CosineSimilarity(tv, features[x], sqrt)
    ensures M[x := similarity] == map m | m in done + {x} :: CosineSimilarity(tv, features[m], sqrt)
  {
  }

  /** The view of the filter after one more catalog entry (k, v). */
  lemma RatedViewStep(Mp: map<Movie, seq<real>>, Mf: map<Movie, Option<real>>, k: Movie, v: seq<real>,
                      ranks: map<Movie, real>, tv: seq<real>, sqrt: real -> real)
    requires k !in Mp
    requires Mf == map m | m in Mp && m in ranks :: CosineSimilarity(tv, Mp[m], sqrt)
    ensures (if k in ranks then Mf[k := CosineSimilarity(tv, v, sqrt)] else Mf) ==
      map m | m in Mp[k := v] && m in ranks :: CosineSimilarity(tv, Mp[k := v][m], sqrt)
  {
  }

  /** recommend_by_cf's `rating_map`: the unrated movies of s, in order,
      each with its predicted score. */
  function UnratedScores(s: seq<Entry<seq<real>>>, ranks: map<Movie, real>, predicted: map<Movie, real>): seq<Entry<Option<real>>>
    requires forall j :: 0 <= j < |s| && s[j].key !in ranks ==> s[j].key in predicted
    decreases |s|
  {
    if s == [] then []
    else
      var p := UnratedScores(s[..|s| - 1], ranks, predicted);
      var e := s[|s| - 1];
      if e.key !in ranks then p + [Entry(e.key, Some(predicted[e.key]))] else p
  }

  /** Over a sorted catalog the filter is sorted and holds exactly the
      scores of the unrated catalog movies. */
  lemma {:induction false} UnratedScoresSpec(s: seq<Entry<seq<real>>>, ranks: map<Movie, real>, predicted: map<Movie, real>)
    requires Sorted(s)
    requires forall j :: 0 <= j < |s| && s[j].key !in ranks ==> s[j].key in predicted
    ensures Sorted(UnratedScores(s, ranks, predicted))
    ensures ToMap(UnratedScores(s, ranks, predicted)) ==
      map m | m in ToMap(s) && m !in ranks && m in predicted :: Some(predicted[m])
    decreases |s|
  {
    if s != [] {
      var p, e := s[..|s| - 1], s[|s| - 1];
      SortedInit(s);
      UnratedScoresSpec(p, ranks, predicted);
      var f := UnratedScores(p, ranks, predicted);
      if e.key !in ranks {
        BelowView(p, e.key);
        BelowView(f, e.key);
        var x := Entry(e.key, Some(predicted[e.key]));
        SortedSnoc(f, x);
        ToMapSnoc(f, x);
      }
      UnratedViewStep(ToMap(p), ToMap(f), e.key, e.val, ranks, predicted);
    }
  }

  /** The view of the filter after one more catalog entry (k, v). */
  lemma UnratedViewStep(Mp: map<Movie, seq<real>>, Mf: map<Movie, Option<real>>, k: Movie, v: seq<real>,
                        ranks: map<Movie, real>, predicted: map<Movie, real>)
    requires k !in Mp && (k !in ranks ==> k in predicted)
    requires Mf == map m | m in Mp && m !in ranks && m in predicted :: Some(predicted[m])
    ensures (if k !in ranks then Mf[k := Some(predicted[k])] else Mf) ==
      map m | m in Mp[k := v] && m !in ranks && m in predicted :: Some(predicted[m])
  {
  }

  /** One more catalog entry extends the filter of a prefix, which lies
      below that entry's key. */
  lemma UnratedScoresStep(s: seq<Entry<seq<real>>>, i: nat, ranks: map<Movie, real>, predicted: map<Movie, real>)
    requires Sorted(s) && i < |s|
    requires forall j :: 0 <= j < |s| && s[j].key !in ranks ==> s[j].key in predicted
    ensures Below(UnratedScores(s[..i], ranks, predicted), s[i].key)
    ensures UnratedScores(s[..i + 1], ranks, predicted) ==
      if s[i].key !in ranks then UnratedScores(s[..i], ranks, predicted) + [Entry(s[i].key, Some(predicted[s[i].key]))]
      else UnratedScores(s[..i], ranks, predicted)
  {
    assert s[..i + 1][..i] == s[..i];
    var f := UnratedScores(s[..i], ranks, predicted);
    UnratedScoresSpec(s[..i], ranks, predicted);
    SortedInit(s[..i + 1]);
    BelowView(s[..i], s[i].key);
    BelowView(f, s[i].key);
  }

  /** The first maximum of the filter, in movie terms: none exactly when
      every catalog movie is rated; otherwise an unrated movie whose score
      is at least every unrated movie's and above that of every unrated
      movie before it. */
  lemma UnratedArgmax(s: seq<Entry<seq<real>>>, ranks: map<Movie, real>, predicted: map<Movie, real>)
    requires Sorted(s)
    requires forall m :: m in ToMap(s) && m !in ranks ==> m in predicted
    ensures forall j :: 0 <= j < |s| && s[j].key !in ranks ==> s[j].key in predicted
    ensures var f := UnratedScores(s, ranks, predicted);
      FirstMax(f, Score).None? <==> ToMap(s).Keys <= ranks.Keys
    ensures var f := UnratedScores(s, ranks, predicted);
      FirstMax(f, Score).Some? ==>
        var best := f[FirstMax(f, Score).value].key;
        && best in ToMap(s) && best !in ranks && best in predicted
        && forall m :: m in ToMap(s) && m !in ranks ==>
             predicted[m] <= predicted[best] && (Less(m, best) ==> predicted[m] < predicted[best])
  {
    KeysInView(s);
    var f := UnratedScores(s, ranks, predicted);
    UnratedScoresSpec(s, ranks, predicted);
    FirstMaxSpec(f, Score);
    if m :| m in ToMap(s) && m !in ranks {
      var j := IndexOf(f, m);
      ToMapAt(f, j);
      var i := FirstMax(f, Score).value;
      ToMapAt(f, i);
      var best := f[i].key;
      forall u | u in ToMap(s) && u !in ranks
        ensures predicted[u] <= predicted[best] && (Less(u, best) ==> predicted[u] < predicted[best])
      {
        var l := IndexOf(f, u);
        ToMapAt(f, l);
        SortedOrder(f, l, i);
      }
    } else {
      SortedSize(f);
      assert ToMap(f) == map[];
    }
  }

  /** A sum over the keys of a sorted prefix grows by the next key's term. */
  lemma SumPrefixStep<V>(s: seq<Entry<V>>, i: nat, f: Movie -> real)
    requires Sorted(s) && i < |s|
    ensures Sum(ToMap(s[..i + 1]).Keys, f) == Sum(ToMap(s[..i]).Keys, f) + f(s[i].key)
  {
    SortedInit(s[..i + 1]);
    assert s[..i + 1][..i] == s[..i];
    SumInsert(ToMap(s[..i]).Keys, f, s[i].key);
    assert ToMap(s[..i + 1]).Keys == ToMap(s[..i]).Keys + {s[i].key};
  }

  /** One step of calculate_rank's loop: both sums grow by the next entry's
      terms. */
  lemma RankStep(kMap: seq<Entry<real>>, i: nat, ranks: map<Movie, real>)
    requires Sorted(kMap) && i < |kMap| && ToMap(kMap).Keys <= ranks.Keys
    ensures kMap[i].key in ranks
    ensures Sum(ToMap(kMap[..i + 1]).Keys, ValueOf(ToMap(kMap))) ==
      Sum(ToMap(kMap[..i]).Keys, ValueOf(ToMap(kMap))) + kMap[i].val
    ensures Sum(ToMap(kMap[..i + 1]).Keys, WeightedRating(ToMap(kMap), ranks)) ==
      Sum(ToMap(kMap[..i]).Keys, WeightedRating(ToMap(kMap), ranks)) + kMap[i].val * ranks[kMap[i].key]
  {
    var km := ToMap(kMap);
    ToMapAt(kMap, i);
    SumPrefixStep(kMap, i, ValueOf(km));
    SumPrefixStep(kMap, i, WeightedRating(km, ranks));
    RankTermAt(kMap, i, ranks);
  }

  /** The terms of calculate_rank's sums for the entry at i (a solver aid:
      the rank lambdas applied to one entry). */
  lemma RankTermAt(kMap: seq<Entry<real>>, i: nat, ranks: map<Movie, real>)
    requires i < |kMap| && kMap[i].key in ranks
    requires kMap[i].key in ToMap(kMap) && ToMap(kMap)[kMap[i].key] == kMap[i].val
    ensures ValueOf(ToMap(kMap))(kMap[i].key) == kMap[i].val
    ensures WeightedRating(ToMap(kMap), ranks)(kMap[i].key) == kMap[i].val * ranks[kMap[i].key]
  {
    WeightedRatingAt(ToMap(kMap), ranks, kMap[i].key);
  }

  class RecommendationSystem {
    var rs: seq<Entry<seq<real>>>
    const sqrt: real -> real

    /** The std::map invariant: entries strictly ordered by operator<. */
    ghost predicate Valid()
      reads this
    {
      Sorted(rs)
    }

    /** The catalog as a map from movies to feature vectors. */
    function Contents(): map<Movie, seq<real>>
      reads this
    {
      ToMap(rs)
    }

    /** Length of the first catalog vector, as get_preferences_vec sizes its
        vectors. */
    function Dim(): nat
      reads this
      requires |rs| > 0
    {
      |rs[0].val|
    }

    /** Every feature vector has the length of the first, as the loader
        guarantees. */
    ghost predicate Uniform()
      reads this
    {
      |rs| > 0 ==> forall m :: m in Contents() ==> |Contents()[m]| == Dim()
    }

    constructor (sqrt: real -> real)
      ensures Valid() && Uniform()
      ensures Contents() == map[] && this.sqrt == sqrt
    {
      rs := [];
      this.sqrt := sqrt;
    }

    /** add_movie: _rs[to_add] = features inserts or overwrites. */
    method AddMovie(name: string, year: int, features: seq<real>) returns (m: Movie)
      requires Valid()
      modifies this
      ensures Valid()
      ensures m == Movie(name, year)
      ensures Contents() == old(Contents())[m := features]
      ensures |Contents()| == if m in old(Contents()) then |old(Contents())| else |old(Contents())| + 1
      ensures GetMovie(name, year) == Some(m)
      ensures old(Uniform()) && (old(rs) == [] || |features| == old(Dim())) ==> Uniform()
    {
      m := Movie(name, year);
      ghost var d := if rs == [] then |features| else Dim();
      InsertSpec(rs, m, features);
      rs := Insert(rs, m, features);
      if old(Uniform()) && (old(rs) == [] || |features| == d) {
        ToMapAt(rs, 0);
        if old(rs) != [] {
          ToMapAt(old(rs), 0);
        } else {
          assert Contents() == map[m := features];
        }
        assert |rs[0].val| == d;
      }
    }

    /** get_movie: the stored movie equal to (name, year), or None where the
        C++ code returns nullptr. */
    function GetMovie(name: string, year: int): (r: Option<Movie>)
      reads this
      requires Valid()
      ensures r.Some? <==> Movie(name, year) in Contents()
      ensures r.Some? ==> r.value == Movie(name, year)
    {
      FindIndexSpec(rs, Movie(name, year));
      match FindIndex(rs, Movie(name, year))
      case None => None
      case Some(i) => Some(rs[i].key)
    }

    /** get_user_mean: the ratings are summed in the rank map's (unspecified)
        iteration order. */
    static method GetUserMean(ranks: map<Movie, real>) returns (mean: real)
      requires |ranks| > 0
      ensures mean == Mean(ranks)
    {
      var sum := 0.0;
      var rest := ranks.Keys;
      while rest != {}
        invariant rest <= ranks.Keys
        invariant sum + Sum(rest, ValueOf(ranks)) == Sum(ranks.Keys, ValueOf(ranks))
        decreases rest
      {
        var x :| x in rest;
        SumPick(rest, ValueOf(ranks), x);
        sum := sum + ranks[x];
        rest := rest - {x};
      }
      mean := sum / (|ranks| as real);
    }

    /** std::transform into `out`: the first |v| slots receive v scaled by c,
        the others keep their value. */
    static method ScaleInto(v: seq<real>, c: real, out: array<real>)
      requires |v| <= out.Length
      modifies out
      ensures forall l :: 0 <= l < |v| ==> out[l] == v[l] * c
      ensures forall l :: |v| <= l < out.Length ==> out[l] == old(out[l])
    {
      for j := 0 to |v|
        invariant forall l :: 0 <= l < j ==> out[l] == v[l] * c
        invariant forall l :: j <= l < out.Length ==> out[l] == old(out[l])
      {
        out[j] := v[j] * c;
      }
    }

    /** The loop pref_vec[i] += accumulator[i] over the length of pref_vec. */
    static method AddInto(dst: array<real>, src: array<real>)
      requires dst != src && dst.Length <= src.Length
      modifies dst
      ensures forall l :: 0 <= l < dst.Length ==> dst[l] == old(dst[l]) + src[l]
    {
      for i := 0 to dst.Length
        invariant forall l :: 0 <= l < i ==> dst[l] == old(dst[l]) + src[l]
        invariant forall l :: i <= l < dst.Length ==> dst[l] == old(dst[l])
      {
        dst[i] := dst[i] + src[i];
      }
    }

    /** get_preferences_vec: for each rating, in the rank map's iteration
        order, the movie's vector scaled by the centred rating is written
        into `accumulator` and added into `pref_vec`. */
    method GetPreferencesVec(ranks: map<Movie, real>, mean: real) returns (pref: seq<real>)
      requires Valid() && Uniform() && |rs| > 0
      requires ranks.Keys <= Contents().Keys
      ensures |pref| == Dim()
      ensures pref == PrefVec(ranks, Contents(), Dim(), mean)
    {
      var dim := |rs[0].val|;
      var accumulator := new real[dim](_ => 0.0);
      var prefVec := new real[dim](_ => 0.0);
      ghost var features := Contents();
      var rest := ranks.Keys;
      while rest != {}
        invariant rest <= ranks.Keys && features == Contents()
        invariant forall i :: 0 <= i < dim ==> prefVec[i] == Sum(ranks.Keys - rest, PrefTerm(ranks, features, mean, i))
        decreases rest
      {
        var x :| x in rest;
        var curVec := FeaturesOf(x);
        assert curVec == features[x] && |curVec| == dim;
        ghost var done := ranks.Keys - rest;
        ghost var before := prefVec[..];
        var centred := ranks[x] - mean;
        ScaleInto(curVec, centred, accumulator);
        ghost var scaled := accumulator[..];
        AddInto(prefVec, accumulator);
        assert accumulator[..] == scaled;
        forall l | 0 <= l < dim
          ensures prefVec[l] == Sum(done + {x}, PrefTerm(ranks, features, mean, l))
        {
          ghost var term := PrefTerm(ranks, features, mean, l);
          SumInsert(done, term, x);
          PrefTermAt(ranks, features, mean, l, x, curVec, centred);
          assert before[l] == Sum(done, term);
          assert accumulator[l] == scaled[l];
          assert prefVec[l] == before[l] + accumulator[l];
        }
        rest := rest - {x};
        assert ranks.Keys - rest == done + {x};
      }
      assert ranks.Keys - rest == ranks.Keys;
      pref := prefVec[..];
      ghost var spec := PrefVec(ranks, features, dim, mean);
      assert |pref| == |spec|;
      forall i | 0 <= i < dim ensures pref[i] == spec[i] {
        assert prefVec[i] == Sum(ranks.Keys, PrefTerm(ranks, features, mean, i));
      }
    }

    /** _rs.find(x)->second for a catalog movie x. */
    function FeaturesOf(x: Movie): (v: seq<real>)
      reads this
      requires Valid() && Uniform() && |rs| > 0 && x in Contents()
      ensures v == Contents()[x] && |v| == Dim()
    {
      FindIndexSpec(rs, x);
      Lookup(rs, x).value
    }

    /** The preferences vector of a user. */
    ghost function Preferences(ranks: map<Movie, real>): seq<real>
      reads this
      requires |rs| > 0 && |ranks| > 0
    {
      PrefVec(ranks, Contents(), Dim(), Mean(ranks))
    }

    /** The similarity recommend_by_content computes for a catalog movie. */
    ghost function ContentSimilarity(ranks: map<Movie, real>, m: Movie): Option<real>
      reads this
      requires |rs| > 0 && |ranks| > 0 && m in Contents()
    {
      CosineSimilarity(Contents()[m], Preferences(ranks), sqrt)
    }

    /** The movie recommend_by_content returns: the first maximum, in catalog
        order, of the similarities of the unrated movies. */
    ghost function ContentRecommendation(ranks: map<Movie, real>): Option<Movie>
      reads this
      requires |rs| > 0 && |ranks| > 0
    {
      match FirstMax(rs, ContentScore(ranks, Preferences(ranks), sqrt))
      case None => None
      case Some(i) => Some(rs[i].key)
    }

    /** recommend_by_content: a running best that starts at NEG_INF (None)
        and is replaced only by a strictly greater similarity. */
    method RecommendByContent(ranks: map<Movie, real>) returns (r: Option<Movie>)
      requires Valid() && Uniform() && |rs| > 0 && |ranks| > 0
      requires ranks.Keys <= Contents().Keys
      ensures r == ContentRecommendation(ranks)
    {
      var maxVal: Option<real> := None;
      var maxMovie: Option<Movie> := None;
      var mean := GetUserMean(ranks);
      var pref := GetPreferencesVec(ranks, mean);
      ghost var score := ContentScore(ranks, pref, sqrt);
      ghost var best: Option<nat> := None;
      for i := 0 to |rs|
        invariant best == FirstMax(rs[..i], score)
        invariant best.None? ==> maxVal.None? && maxMovie.None?
        invariant best.Some? ==> best.value < i && maxVal == score(rs[best.value]) && maxMovie == Some(rs[best.value].key)
      {
        FirstMaxStep(rs, score, i);
        ContentScoreAt(ranks, pref, sqrt, rs[i]);
        var curVec := rs[i].val;
        var curMovie := rs[i].key;
        if curMovie !in ranks {
          var curSimilarity := CosineSimilarity(curVec, pref, sqrt);
          if curSimilarity.Some? && (maxVal.None? || curSimilarity.value > maxVal.value) {
            maxVal := curSimilarity;
            maxMovie := Some(curMovie);
            best := Some(i);
          }
        }
      }
      assert rs[..|rs|] == rs;
      r := maxMovie;
    }

    /** The contract of recommend_by_content in terms of movies: no result
        exactly when no unrated movie has a defined similarity; otherwise an
        unrated catalog movie whose similarity is at least that of every
        unrated movie and above that of every unrated movie before it in
        movie order. */
    lemma ContentRecommendationSpec(ranks: map<Movie, real>)
      requires Valid() && |rs| > 0 && |ranks| > 0
      ensures ContentRecommendation(ranks).None? <==>
        forall m :: m in Contents() && m !in ranks ==> ContentSimilarity(ranks, m).None?
      ensures ContentRecommendation(ranks).Some? ==>
        var best := ContentRecommendation(ranks).value;
        && best in Contents() && best !in ranks && ContentSimilarity(ranks, best).Some?
        && forall m :: m in Contents() && m !in ranks && ContentSimilarity(ranks, m).Some? ==>
             && ContentSimilarity(ranks, m).value <= ContentSimilarity(ranks, best).value
             && (Less(m, best) ==> ContentSimilarity(ranks, m).value < ContentSimilarity(ranks, best).value)
      ensures ContentRecommendation(ranks).Some? ==>
        var best := ContentRecommendation(ranks).value;
        GetMovie(best.name, best.year) == Some(best)
    {
      var score := ContentScore(ranks, Preferences(ranks), sqrt);
      FirstMaxSpec(rs, score);
      forall j | 0 <= j < |rs|
        ensures rs[j].key in Contents()
        ensures score(rs[j]) == if rs[j].key in ranks then None else ContentSimilarity(ranks, rs[j].key)
      {
        ToMapAt(rs, j);
      }
      match FirstMax(rs, score)
      case None =>
        forall m | m in Contents() && m !in ranks ensures ContentSimilarity(ranks, m).None? {
          var j := IndexOf(rs, m);
        }
      case Some(i) =>
        var best := rs[i].key;
        forall m | m in Contents() && m !in ranks && ContentSimilarity(ranks, m).Some?
          ensures ContentSimilarity(ranks, m).value <= ContentSimilarity(ranks, best).value
          ensures Less(m, best) ==> ContentSimilarity(ranks, m).value < ContentSimilarity(ranks, best).value
        {
          var j := IndexOf(rs, m);
          SortedOrder(rs, j, i);
        }
    }

    /** When every unrated movie has a defined similarity, there is no
        content recommendation exactly when every catalog movie is rated. */
    lemma NoContentRecommendationIffAllRated(ranks: map<Movie, real>)
      requires Valid() && |rs| > 0 && |ranks| > 0
      requires forall m :: m in Contents() && m !in ranks ==> ContentSimilarity(ranks, m).Some?
      ensures ContentRecommendation(ranks).None? <==> Contents().Keys <= ranks.Keys
    {
      ContentRecommendationSpec(ranks);
      if !(Contents().Keys <= ranks.Keys) {
        var m :| m in Contents() && m !in ranks;
      }
    }

    /** A user who gives every movie the same rating has a zero preferences
        vector, so every similarity divides by a zero norm and there is no
        content recommendation, whatever is left unrated. */
    lemma EqualRatingsGiveNoContentRecommendation(ranks: map<Movie, real>, c: real)
      requires Valid() && |rs| > 0 && |ranks| > 0
      requires forall m :: m in ranks ==> ranks[m] == c
      requires sqrt(0.0) == 0.0
      ensures ContentRecommendation(ranks).None?
    {
      MeanOfEqualRatings(ranks, c);
      PrefVecOfEqualRatings(ranks, Contents(), Dim(), c);
      forall m | m in Contents() ensures ContentSimilarity(ranks, m).None? {
        ZeroVectorHasNoSimilarity(Contents()[m], Preferences(ranks), sqrt);
      }
      ContentRecommendationSpec(ranks);
    }

    // -------------------------------------------------------------------
    // Collaborative filtering.

    /** The similarities of the rated movies to target. */
    ghost function Similarities(ranks: map<Movie, real>, target: Movie): map<Movie, Option<real>>
      reads this
      requires target in Contents() && ranks.Keys <= Contents().Keys
    {
      map m | m in ranks :: CosineSimilarity(Contents()[target], Contents()[m], sqrt)
    }

    /** predict_movie_score's `movie_scores`, in its key order. */
    function RatedScores(ranks: map<Movie, real>, target: Movie): seq<Entry<Option<real>>>
      reads this
      requires target in Contents()
    {
      RatedSimilarities(rs, ranks, Contents()[target], sqrt)
    }

    /** The k neighbours predict_movie_score selects, with their similarities. */
    function Neighbours(ranks: map<Movie, real>, target: Movie, k: nat): map<Movie, real>
      reads this
      requires target in Contents()
    {
      TopK(RatedScores(ranks, target), k)
    }

    /** What predict_movie_score needs of its arguments: the target and the
        rated movies are in the catalog, at least k rated movies have a
        defined similarity, and the selected similarities do not sum to 0. */
    ghost predicate CanPredict(ranks: map<Movie, real>, target: Movie, k: nat)
      reads this
    {
      && Valid() && target in Contents() && ranks.Keys <= Contents().Keys
      && k <= |DefinedKeys(Similarities(ranks, target))|
      && WeightSum(Neighbours(ranks, target, k)) != 0.0
    }

    /** The predicted rating: calculate_rank of the selected neighbours. */
    ghost function PredictedScore(ranks: map<Movie, real>, target: Movie, k: nat): real
      reads this
      requires CanPredict(ranks, target, k)
    {
      Rank(Neighbours(ranks, target, k), ranks)
    }

    /** The neighbours are a top-k selection from the similarities of the
        rated movies: k distinct rated movies, each with a similarity at
        least that of every rated movie left out (ties to the earlier
        movie). */
    lemma NeighboursAreTopK(ranks: map<Movie, real>, target: Movie, k: nat)
      requires Valid() && target in Contents() && ranks.Keys <= Contents().Keys
      requires k <= |DefinedKeys(Similarities(ranks, target))|
      ensures Sorted(RatedScores(ranks, target))
      ensures ToMap(RatedScores(ranks, target)) == Similarities(ranks, target)
      ensures IsTopK(Neighbours(ranks, target, k), Similarities(ranks, target), k)
      ensures Neighbours(ranks, target, k).Keys <= ranks.Keys
    {
      RatedSimilaritiesSpec(rs, ranks, Contents()[target], sqrt);
      assert ToMap(RatedScores(ranks, target)) == Similarities(ranks, target);
      TopKIsTopK(RatedScores(ranks, target), k);
    }

    /** calculate_rank: sum of similarity times rating over sum of similarity,
        accumulated in key order. */
    static method CalculateRank(kMap: seq<Entry<real>>, ranks: map<Movie, real>) returns (r: real)
      requires Sorted(kMap) && ToMap(kMap).Keys <= ranks.Keys
      requires WeightSum(ToMap(kMap)) != 0.0
      ensures r == Rank(ToMap(kMap), ranks)
    {
      var rankSum := 0.0;
      var simSum := 0.0;
      ghost var w := ValueOf(ToMap(kMap));
      ghost var wr := WeightedRating(ToMap(kMap), ranks);
      for i := 0 to |kMap|
        invariant simSum == Sum(ToMap(kMap[..i]).Keys, w)
        invariant rankSum == Sum(ToMap(kMap[..i]).Keys, wr)
      {
        RankStep(kMap, i, ranks);
        simSum := simSum + kMap[i].val;
        rankSum := rankSum + kMap[i].val * ranks[kMap[i].key];
      }
      assert kMap[..|kMap|] == kMap;
      r := rankSum / simSum;
    }
    /** A user who gives every rated movie the same rating c is predicted c
        for any movie. */
    lemma PredictionOfEqualRatings(ranks: map<Movie, real>, target: Movie, k: nat, c: real)
      requires CanPredict(ranks, target, k)
      requires forall m :: m in ranks ==> ranks[m] == c
      ensures PredictedScore(ranks, target, k) == c
    {
      NeighboursAreTopK(ranks, target, k);
      RankOfEqualRatings(Neighbours(ranks, target, k), ranks, c);
    }

    /** The first loop of predict_movie_score: movie_scores[rated] =
        calculate_similarity(target, rated), in the rank map's iteration
        order. */
    method SimilarityScores(ranks: map<Movie, real>, target: Movie) returns (movieScores: seq<Entry<Option<real>>>)
      requires Valid() && target in Contents() && ranks.Keys <= Contents().Keys
      ensures movieScores == RatedScores(ranks, target)
    {
      movieScores := [];
      ghost var features := Contents();
      ghost var tv := features[target];
      FindIndexSpec(rs, target);
      var targetVec := Lookup(rs, target).value;
      var rest := ranks.Keys;
      while rest != {}
        invariant rest <= ranks.Keys
        invariant Sorted(movieScores)
        invariant ToMap(movieScores) == map m | m in ranks.Keys - rest :: CosineSimilarity(tv, features[m], sqrt)
        decreases rest
      {
        var x :| x in rest;
        FindIndexSpec(rs, x);
        var curVec := Lookup(rs, x).value;
        var similarity := CosineSimilarity(targetVec, curVec, sqrt);
        InsertSpec(movieScores, x, similarity);
        SimilarityViewStep(ToMap(movieScores), ranks.Keys - rest, x, features, tv, sqrt, similarity);
        movieScores := Insert(movieScores, x, similarity);
        assert ranks.Keys - (rest - {x}) == (ranks.Keys - rest) + {x};
        rest := rest - {x};
      }
      RatedSimilaritiesSpec(rs, ranks, tv, sqrt);
      assert ToMap(movieScores) == ToMap(RatedScores(ranks, target));
      SortedUnique(movieScores, RatedScores(ranks, target));
    }

    /** predict_movie_score: the similarity map, k rounds of top-k
        extraction, and calculate_rank of the selection. */
    method PredictMovieScore(ranks: map<Movie, real>, target: Movie, k: nat) returns (score: real)
      requires CanPredict(ranks, target, k)
      ensures score == PredictedScore(ranks, target, k)
    {
      var movieScores := SimilarityScores(ranks, target);
      NeighboursAreTopK(ranks, target, k);
      var kScores := SelectTopK(movieScores, k);
      score := CalculateRank(kScores, ranks);
    }

    /** Every unrated catalog movie can be predicted, as recommend_by_cf
        needs. */
    ghost predicate CfReady(ranks: map<Movie, real>, k: nat)
      reads this
    {
      Valid() && forall m :: m in Contents() && m !in ranks ==> CanPredict(ranks, m, k)
    }

    /** The predicted scores of the unrated catalog movies. */
    ghost function Predictions(ranks: map<Movie, real>, k: nat): map<Movie, real>
      reads this
      requires CfReady(ranks, k)
    {
      map m | m in Contents() && m !in ranks :: PredictedScore(ranks, m, k)
    }

    /** recommend_by_cf's `rating_map`. */
    ghost function CfScores(ranks: map<Movie, real>, k: nat): seq<Entry<Option<real>>>
      reads this
      requires CfReady(ranks, k)
    {
      KeysInView(rs);
      UnratedScores(rs, ranks, Predictions(ranks, k))
    }

    /** The movie recommend_by_cf returns: the first maximum, in catalog
        order, of the predicted scores of the unrated movies. */
    ghost function CfRecommendation(ranks: map<Movie, real>, k: nat): Option<Movie>
      reads this
      requires CfReady(ranks, k)
    {
      var s := CfScores(ranks, k);
      match FirstMax(s, Score)
      case None => None
      case Some(i) => Some(s[i].key)
    }
    /** The predicted score of an unrated catalog movie (a solver aid: one
        entry of the Predictions map comprehension). */
    lemma PredictionsAt(ranks: map<Movie, real>, k: nat, m: Movie)
      requires CfReady(ranks, k) && m in Contents() && m !in ranks
      ensures CanPredict(ranks, m, k)
      ensures m in Predictions(ranks, k) && Predictions(ranks, k)[m] == PredictedScore(ranks, m, k)
    {
    }

    /** recommend_by_cf: rating_map[movie] = predict_movie_score(movie) for
        each unrated movie in catalog order, then the first-maximum scan. */
    method RecommendByCf(ranks: map<Movie, real>, k: nat) returns (r: Option<Movie>)
      requires CfReady(ranks, k)
      ensures r == CfRecommendation(ranks, k)
    {
      ghost var predicted := Predictions(ranks, k);
      KeysInView(rs);
      var ratingMap: seq<Entry<Option<real>>> := [];
      for i := 0 to |rs|
        invariant ratingMap == UnratedScores(rs[..i], ranks, predicted)
      {
        UnratedScoresStep(rs, i, ranks, predicted);
        if rs[i].key !in ranks {
          PredictionsAt(ranks, k, rs[i].key);
          var curRating := PredictMovieScore(ranks, rs[i].key, k);
          InsertLast(ratingMap, rs[i].key, Some(curRating));
          ratingMap := Insert(ratingMap, rs[i].key, Some(curRating));
        }
      }
      assert rs[..|rs|] == rs;
      var maxMovie, _ := FirstMaxScan(ratingMap);
      r := maxMovie;
    }

    /** The contract of recommend_by_cf in terms of movies: no result exactly
        when every catalog movie is rated; otherwise an unrated catalog movie
        whose predicted score is at least that of every unrated movie and
        above that of every unrated movie before it in movie order. */
    lemma CfRecommendationSpec(ranks: map<Movie, real>, k: nat)
      requires CfReady(ranks, k)
      ensures CfRecommendation(ranks, k).None? <==> Contents().Keys <= ranks.Keys
      ensures CfRecommendation(ranks, k).Some? ==>
        var best := CfRecommendation(ranks, k).value;
        && best in Contents() && best !in ranks
        && forall m :: m in Contents() && m !in ranks ==>
             && Predictions(ranks, k)[m] <= Predictions(ranks, k)[best]
             && (Less(m, best) ==> Predictions(ranks, k)[m] < Predictions(ranks, k)[best])
      ensures CfRecommendation(ranks, k).Some? ==>
        var best := CfRecommendation(ranks, k).value;
        GetMovie(best.name, best.year) == Some(best)
    {
      UnratedArgmax(rs, ranks, Predictions(ranks, k));
    }
  }
}
