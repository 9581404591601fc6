/** User.cpp: a user's ratings and the catalog the user shares with others.
    Adding a movie updates both; the recommendation queries delegate to the
    catalog with the user's ratings. */
module Users {
  import opened Wrappers
  import opened Movies
  import opened Catalog

  class User {
    const username: string
    var ranks: map<Movie, real>
    const recsys: RecommendationSystem

    constructor (name: string, rankings: map<Movie, real>, recsys: RecommendationSystem)
      ensures username == name && ranks == rankings && this.recsys == recsys
    {
      username := name;
      ranks := rankings;
      this.recsys := recsys;
    }

    /** What the loader establishes: the catalog is well formed and holds
        every movie the user rated. */
    ghost predicate Consistent()
      reads this, recsys
    {
      recsys.Valid() && ranks.Keys <= recsys.Contents().Keys
    }

    /** add_movie_to_rs: add (or overwrite) the movie in the shared catalog,
        then rate the stored movie get_movie returns. */
    method AddMovieToRs(name: string, year: int, features: seq<real>, rate: real)
      requires recsys.Valid()
      modifies this, recsys
      ensures recsys.Valid()
      ensures recsys.Contents() == old(recsys.Contents())[Movie(name, year) := features]
      ensures ranks == old(ranks)[Movie(name, year) := rate]
      ensures old(Consistent()) ==> Consistent()
      ensures old(recsys.Uniform()) && (old(recsys.rs) == [] || |features| == old(recsys.Dim())) ==> recsys.Uniform()
    {
      var _ := recsys.AddMovie(name, year, features);
      var m := recsys.GetMovie(name, year);
      ranks := ranks[m.value := rate];
    }

    /** get_recommendation_by_content. */
    method GetRecommendationByContent() returns (r: Option<Movie>)
      requires Consistent() && recsys.Uniform() && |ranks| > 0
      ensures r == recsys.ContentRecommendation(ranks)
    {
      r := recsys.RecommendByContent(ranks);
    }

    /** get_recommendation_by_cf. */
    method GetRecommendationByCf(k: nat) returns (r: Option<Movie>)
      requires recsys.CfReady(ranks, k)
      ensures r == recsys.CfRecommendation(ranks, k)
    {
      r := recsys.RecommendByCf(ranks, k);
    }

    /** get_prediction_score_for_movie: predict_movie_score of the movie
        get_movie finds. */
    method GetPredictionScoreForMovie(name: string, year: int, k: nat) returns (score: real)
      requires recsys.Valid() && recsys.GetMovie(name, year).Some?
      requires recsys.CanPredict(ranks, Movie(name, year), k)
      ensures score == recsys.PredictedScore(ranks, Movie(name, year), k)
    {
      var moviePtr := recsys.GetMovie(name, year);
      score := recsys.PredictMovieScore(ranks, moviePtr.value, k);
    }
  }
}
