/** The arithmetic of RecommendationSystem.cpp over a user's ratings,
    stated as sums over the rated movies: the user mean, the components of
    the mean-centred preference vector and the weighted rank of a top-k
    selection. */
module Ratings {
  import opened Movies
  import opened Sums

  /** A map's value at m, or 0 where it has none: a rating in the rank map
      or a similarity in the selected neighbours. */
  function ValueOf(M: map<Movie, real>): Movie -> real {
    m => if m in M then M[m] else 0.0
  }

  /** get_user_mean: the sum of the ratings over their number. */
  ghost function Mean(ranks: map<Movie, real>): real
    requires |ranks| > 0
  {
    Sum(ranks.Keys, ValueOf(ranks)) / (|ranks| as real)
  }

  /** A rating minus the mean. */
  function Centred(ranks: map<Movie, real>, mean: real): Movie -> real {
    m => if m in ranks then ranks[m] - mean else 0.0
  }

  /** The contribution of movie m to component i of the preference vector:
      its feature i scaled by its centred rating. */
  function PrefTerm(ranks: map<Movie, real>, features: map<Movie, seq<real>>, mean: real, i: int): Movie -> real {
    m => if m in ranks && m in features && 0 <= i < |features[m]| then features[m][i] * (ranks[m] - mean) else 0.0
  }

  // Solver aid: the term lambda applied to one rated movie.
  lemma PrefTermAt(ranks: map<Movie, real>, features: map<Movie, seq<real>>, mean: real, i: int, m: Movie,
                   v: seq<real>, centred: real)
    requires m in ranks && m in features && features[m] == v && 0 <= i < |v| && centred == ranks[m] - mean
    ensures PrefTerm(ranks, features, mean, i)(m) == v[i] * centred
  {
  }

  /** get_preferences_vec: component i sums the terms of all rated movies. */
  ghost function PrefVec(ranks: map<Movie, real>, features: map<Movie, seq<real>>, dim: nat, mean: real): seq<real> {
    seq(dim, i => Sum(ranks.Keys, PrefTerm(ranks, features, mean, i)))
  }

  function WeightedRating(kMap: map<Movie, real>, ranks: map<Movie, real>): Movie -> real {
    m => if m in kMap && m in ranks then kMap[m] * ranks[m] else 0.0
  }

  // Solver aid: the two rank lambdas applied to one neighbour.
  lemma WeightedRatingAt(kMap: map<Movie, real>, ranks: map<Movie, real>, m: Movie)
    requires m in kMap && m in ranks
    ensures ValueOf(kMap)(m) == kMap[m]
    ensures WeightedRating(kMap, ranks)(m) == kMap[m] * ranks[m]
  {
  }

  ghost function WeightSum(kMap: map<Movie, real>): real {
    Sum(kMap.Keys, ValueOf(kMap))
  }

  /** calculate_rank: sum of similarity times rating over sum of similarity. */
  ghost function Rank(kMap: map<Movie, real>, ranks: map<Movie, real>): real
    requires WeightSum(kMap) != 0.0
  {
    Sum(kMap.Keys, WeightedRating(kMap, ranks)) / WeightSum(kMap)
  }

  /** When every selected neighbour has the same rating c, the weighted
      rank is c, whatever the weights. */
  lemma RankOfEqualRatings(kMap: map<Movie, real>, ranks: map<Movie, real>, c: real)
    requires WeightSum(kMap) != 0.0
    requires forall m :: m in kMap ==> m in ranks && ranks[m] == c
    ensures Rank(kMap, ranks) == c
  {
    var w := WeightSum(kMap);
    forall m | m in kMap.Keys ensures WeightedRating(kMap, ranks)(m) == c * ValueOf(kMap)(m) {
      WeightedRatingAt(kMap, ranks, m);
    }
    SumScale(kMap.Keys, ValueOf(kMap), WeightedRating(kMap, ranks), c);
    assert Rank(kMap, ranks) == (c * w) / w;
  }

  /** The mean-centred ratings sum to zero. */
  lemma CentredRatingsSumToZero(ranks: map<Movie, real>)
    requires |ranks| > 0
    ensures Sum(ranks.Keys, Centred(ranks, Mean(ranks))) == 0.0
  {
    var n := |ranks| as real;
    var total := Sum(ranks.Keys, ValueOf(ranks));
    SumShift(ranks.Keys, ValueOf(ranks), Centred(ranks, Mean(ranks)), Mean(ranks));
    assert |ranks.Keys| == |ranks|;
    assert Mean(ranks) * n == total;
  }

  /** When every rating equals c, the mean is c. */
  lemma {:induction false} MeanOfEqualRatings(ranks: map<Movie, real>, c: real)
    requires |ranks| > 0
    requires forall m :: m in ranks ==> ranks[m] == c
    ensures Mean(ranks) == c
  {
    var zero := Centred(ranks, c);
    SumShift(ranks.Keys, ValueOf(ranks), zero, c);
    SumOfZeros(ranks.Keys, zero);
    assert |ranks.Keys| == |ranks|;
  }

  lemma {:induction false} SumOfZeros(s: set<Movie>, f: Movie -> real)
    requires forall m :: m in s ==> f(m) == 0.0
    ensures Sum(s, f) == 0.0
    decreases s
  {
    if s != {} {
      var y :| y in s;
      SumPick(s, f, y);
      SumOfZeros(s - {y}, f);
    }
  }

  /** When every rating equals the mean, the preference vector is zero. */
  lemma PrefVecOfEqualRatings(ranks: map<Movie, real>, features: map<Movie, seq<real>>, dim: nat, c: real)
    requires forall m :: m in ranks ==> ranks[m] == c
    ensures forall i :: 0 <= i < dim ==> PrefVec(ranks, features, dim, c)[i] == 0.0
  {
    forall i | 0 <= i < dim ensures PrefVec(ranks, features, dim, c)[i] == 0.0 {
      SumOfZeros(ranks.Keys, PrefTerm(ranks, features, c, i));
    }
  }

  /** The weighted rank of two neighbours with similarities 0.9 and 0.5 and
      ratings 5 and 3: (0.9 * 5 + 0.5 * 3) / (0.9 + 0.5). */
  lemma RankOfTwo(a: Movie, b: Movie, ranks: map<Movie, real>)
    requires a != b && a in ranks && b in ranks && ranks[a] == 5.0 && ranks[b] == 3.0
    ensures WeightSum(map[a := 0.9, b := 0.5]) == 1.4
    ensures Rank(map[a := 0.9, b := 0.5], ranks) == 6.0 / 1.4
  {
    var k := map[a := 0.9, b := 0.5];
    assert k.Keys == {a, b};
    assert {a, b} - {a} == {b};
    SumPick({a, b}, ValueOf(k), a);
    SumPick({b}, ValueOf(k), b);
    SumPick({a, b}, WeightedRating(k, ranks), a);
    SumPick({b}, WeightedRating(k, ranks), b);
    assert {b} - {b} == {};
  }
}
