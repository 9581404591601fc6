# Movie recommendation engine, modelled in Dafny

This project models the core of a C++ movie recommendation system and proves properties of that model. The system keeps a catalog that maps each movie, identified by (name, year), to a feature vector. It recommends an unrated movie to a user in one of two ways:

- **By content:** the cosine similarity between the movie and the user's mean-centred preference vector.
- **By item-based collaborative filtering:** a rating predicted from the user's k most similar rated movies.

## Modules

- `Movies`: the movie identity.
  - Its order is by year and then by name, with equality defined as "neither is less".
  - It is proved to be a strict total order whose equality is structural.
  - Also here: the shape of the movie hash, with 64-bit wrap-around.
- `OrderedMaps`: the `std::map` keyed by movies under that order.
  - It is a strictly sorted sequence of entries, whose order is also the iteration order.
  - It has a key/value view (`ToMap`) and `find`, `operator[]` assignment and `erase`.
- `Sums`: a sum over a finite set, proved independent of the order of summation. It is used for every sum over an `unordered_map`: those of `get_user_mean` and `get_preferences_vec`. The loop of `predict_movie_score` that fills the similarity map is proved order-independent another way, because the sorted map it builds is unique for its view.
- `Vectors`: the inner product and `calculate_similarity`.
- `Selection`: the two selection rules.
  - The first-maximum scan: only a strictly greater value replaces the running best, starting from "no best yet".
  - Top-k extraction: take the current first maximum, erase it, repeat.
  - A reference characterisation of top-k (`IsTopK`), proved to hold.
- `Ratings`: the user mean, the preference vector and the weighted rank, stated as sums.
- `Catalog`: `class RecommendationSystem`.
  - The catalog `_rs` is a field that the methods update.
  - Every loop of the source is a method with loop invariants, proved against a specification function or an element-wise `ensures`. `add_movie` is a method without a loop; `get_movie` and `calculate_similarity` are functions.
  - The specification functions are then characterised by lemmas in movie terms.
- `Users`: `class User`, holding the username, the rating map and a reference to the shared catalog.

## Model

| member | source | states |
|---|---|---|
| `Movies.Less` | Movie.cpp:36-47 | definition of `operator<`: earlier year first, then the name order; its properties are in `LessIrreflexive`, `LessTransitive`, `LessAsymmetric`, `YearDominates` and `SameYearByName` |
| `Movies.Equal` | Movie.cpp:26-29 | definition of `sp_movie_equal` as "neither is less"; its properties are in `EqualIsIdentity` and `Trichotomy` |
| `Movies.LessIrreflexive` | Movie.cpp:36-47 | no movie is less than itself |
| `Movies.LessTransitive` | Movie.cpp:36-47 | the order is transitive |
| `Movies.LessAsymmetric` | Movie.cpp:36-47 | at most one of a < b and b < a holds |
| `Movies.YearDominates` | Movie.cpp:38-41 | an earlier year orders first whatever the names |
| `Movies.SameYearByName` | Movie.cpp:42-45 | within a year the order is the string order of the names |
| `Movies.StringLess` | Movie.cpp:44 | definition of `std::string`'s `<`: lexicographic, a proper prefix first; its properties are in `StringLessIrreflexive`, `StringLessTransitive`, `StringLessAsymmetric` and `StringLessTotal` |
| `Movies.StringLessIrreflexive` | Movie.cpp:44 | no name is less than itself |
| `Movies.StringLessTransitive` | Movie.cpp:44 | the name order is transitive |
| `Movies.StringLessAsymmetric` | Movie.cpp:44 | at most one of s < t and t < s holds |
| `Movies.StringLessTotal` | Movie.cpp:44 | the string order relates any two different names |
| `Movies.EqualIsIdentity` | Movie.cpp:26-29 | `sp_movie_equal` holds exactly when name and year are equal |
| `Movies.Trichotomy` | Movie.cpp:26-47 | exactly one of a < b, b < a, equal holds |
| `Movies.Hash` | Movie.cpp:12-18 | definition of `sp_movie_hash`, with `size_t` wrap-around; its property is in `HashRespectsEqual` |
| `Movies.HashRespectsEqual` | Movie.cpp:12-18 | equal movies hash equally, for any string and int hashes |
| `Sums.SumPick` | RecommendationSystem.cpp:31-32 | a sum over the rank map is the same whichever element is taken first |
| `OrderedMaps.FindIndex` | RecommendationSystem.cpp:20-24 | `find` returns an entry equal to the key, or none when no stored key is equal |
| `OrderedMaps.Lookup` | RecommendationSystem.cpp:44 | definition of `find(...)->second`; its properties are in `FindIndexSpec` |
| `OrderedMaps.Insert` | RecommendationSystem.cpp:13 | definition of `map[key] = v`, also used at RecommendationSystem.cpp:102, 128 and 144; its properties are in `InsertSpec` and `InsertLast` |
| `OrderedMaps.EraseKey` | RecommendationSystem.cpp:145 | definition of `erase`; its properties are in `EraseKeySpec` |
| `OrderedMaps.FindIndexSpec` | RecommendationSystem.cpp:20-24 | over a sorted map, `find` succeeds exactly for keys of the view, at the entry holding that key and its value |
| `OrderedMaps.InsertSpec` | RecommendationSystem.cpp:13 | `map[key] = v` keeps the map sorted and its view becomes the old view with key mapped to v |
| `OrderedMaps.InsertLast` | RecommendationSystem.cpp:102 | inserting a key above every stored key appends it |
| `OrderedMaps.EraseKeySpec` | RecommendationSystem.cpp:145 | `erase` keeps the map sorted and removes exactly that key from the view |
| `OrderedMaps.SortedOrder` | RecommendationSystem.h:9-15 | iteration order is the comparator's order |
| `OrderedMaps.SortedUnique` | RecommendationSystem.h:77 | an ordered map is determined by its contents, whatever order they were inserted in |
| `OrderedMaps.SortedSize` | RecommendationSystem.h:77 | an ordered map has one entry per key |
| `Vectors.Dot` | RecommendationSystem.cpp:82-89 | definition of `std::inner_product`; its properties are in `DotCommutes` and `DotSelf` |
| `Vectors.CosineSimilarity` | RecommendationSystem.cpp:78-91 | definition of `calculate_similarity`, None for a zero denominator; its properties are in `SimilaritySymmetric`, `SelfSimilarity` and `ZeroVectorHasNoSimilarity` |
| `Vectors.DotCommutes` | RecommendationSystem.cpp:88-89 | the inner product is symmetric |
| `Vectors.DotSelf` | RecommendationSystem.cpp:82-87 | the square root is taken of a non-negative number, and of zero for a zero vector |
| `Vectors.SimilaritySymmetric` | RecommendationSystem.cpp:78-91 | `calculate_similarity(a, b) == calculate_similarity(b, a)` |
| `Vectors.NonZeroDot` | RecommendationSystem.cpp:82-84 | a vector with a non-zero component has a positive inner product with itself |
| `Vectors.SelfSimilarity` | RecommendationSystem.cpp:78-91 | a vector with a non-zero component has similarity 1 to itself |
| `Vectors.ZeroVectorHasNoSimilarity` | RecommendationSystem.cpp:82-90 | against a zero vector the similarity is undefined (0/0) |
| `Selection.FirstMax` | RecommendationSystem.cpp:105-114 | the scan ends on an entry with a defined score, or on none |
| `Selection.FirstMaxSpec` | RecommendationSystem.cpp:105-114 | none exactly when no score is defined; else a maximum, strictly above every defined score before it |
| `Selection.FirstMaxScan` | RecommendationSystem.cpp:134-143 | the loop with `max_val`/`max_movie` from NEG_INF/nullptr computes the first maximum |
| `Selection.Pick` | RecommendationSystem.cpp:132-146 | definition of n rounds of the top-k loop; its properties are in `PickStep` and `PickSelects` |
| `Selection.TopK` | RecommendationSystem.cpp:130-146 | definition of `k_movie_scores`; its properties are in `TopKIsTopK` and `SelectTopK` |
| `Selection.PickStep` | RecommendationSystem.cpp:136-145 | one extraction round keeps the selection invariant and uses up one candidate |
| `Selection.PickSelects` | RecommendationSystem.cpp:132-146 | n rounds add n distinct candidates, each preferred to every candidate left |
| `Selection.TopKIsTopK` | RecommendationSystem.cpp:132-146 | the k rounds select k distinct movies, each with a similarity at least that of every movie left out (ties to the earlier movie) |
| `Selection.SelectTopK` | RecommendationSystem.cpp:130-146 | the loop over `movie_scores`/`k_movie_scores` computes that top-k selection |
| `Selection.TopTwoOfThree` | RecommendationSystem.cpp:132-146 | with similarities 0.9, 0.5, 0.1 and k = 2, the first two movies are selected |
| `Ratings.Mean` | RecommendationSystem.cpp:27-34 | definition of `get_user_mean` as a set sum; its properties are in `MeanOfEqualRatings` and `CentredRatingsSumToZero`, and `GetUserMean` is proved against it |
| `Ratings.PrefVec` | RecommendationSystem.cpp:36-52 | definition of `get_preferences_vec` as set sums; its properties are in `PrefVecOfEqualRatings`, and `GetPreferencesVec` is proved against it |
| `Ratings.Rank` | RecommendationSystem.cpp:150-163 | definition of `calculate_rank` as set sums; its properties are in `RankOfEqualRatings` and `RankOfTwo`, and `CalculateRank` is proved against it |
| `Ratings.CentredRatingsSumToZero` | RecommendationSystem.cpp:27-34 | the ratings minus the mean sum to zero |
| `Ratings.MeanOfEqualRatings` | RecommendationSystem.cpp:27-34 | equal ratings c have mean c |
| `Ratings.PrefVecOfEqualRatings` | RecommendationSystem.cpp:36-52 | ratings equal to the mean give a zero preferences vector |
| `Ratings.RankOfEqualRatings` | RecommendationSystem.cpp:150-163 | neighbours with equal ratings c give rank c, whatever the similarities |
| `Ratings.RankOfTwo` | RecommendationSystem.cpp:150-163 | similarities 0.9, 0.5 and ratings 5, 3 give (0.9·5 + 0.5·3) / 1.4 |
| `Catalog.ContentScore` | RecommendationSystem.cpp:65-67 | definition of recommend_by_content's per-entry test: a rated movie is skipped, otherwise its similarity to the preferences; used by `ContentRecommendation` |
| `Catalog.RatedSimilarities` | RecommendationSystem.cpp:122-129 | definition of `movie_scores` over the catalog; its properties are in `RatedSimilaritiesSpec` |
| `Catalog.UnratedScores` | RecommendationSystem.cpp:95-104 | definition of `rating_map` over the catalog; its properties are in `UnratedScoresSpec` and `UnratedArgmax` |
| `Catalog.RatedSimilaritiesSpec` | RecommendationSystem.cpp:124-129 | `movie_scores` is sorted and maps exactly the rated movies to their similarity to the target |
| `Catalog.UnratedScoresSpec` | RecommendationSystem.cpp:97-104 | `rating_map` is sorted and maps exactly the unrated movies to their predicted scores |
| `Catalog.UnratedArgmax` | RecommendationSystem.cpp:105-114 | cf argmax in movie terms: none exactly when all movies are rated; else an unrated movie with the first maximum score |
| `Catalog.RecommendationSystem.constructor` | RecommendationSystem.h:20 | an empty, valid catalog |
| `Catalog.RecommendationSystem.AddMovie` | RecommendationSystem.cpp:8-15 | inserts or overwrites (name, year) with the features, nothing else changes, grows by at most one, `get_movie` then finds it |
| `Catalog.RecommendationSystem.GetMovie` | RecommendationSystem.cpp:17-25 | a movie equal to (name, year) exactly when one is in the catalog, else none; it reads only |
| `Catalog.RecommendationSystem.GetUserMean` | RecommendationSystem.cpp:27-34 | the loop in any iteration order yields the sum of the ratings over their number |
| `Catalog.RecommendationSystem.ScaleInto` | RecommendationSystem.cpp:45-47 | `std::transform` writes the scaled vector and leaves the rest of the accumulator |
| `Catalog.RecommendationSystem.AddInto` | RecommendationSystem.cpp:48-49 | adds the accumulator into `pref_vec` component-wise |
| `Catalog.RecommendationSystem.FeaturesOf` | RecommendationSystem.cpp:44 | `_rs.find(movie)->second` is the catalog's vector for the movie, of the catalog's length |
| `Catalog.RecommendationSystem.GetPreferencesVec` | RecommendationSystem.cpp:36-52 | a vector of the first vector's length whose component i sums features[i]·(rating − mean) over the rated movies |
| `Catalog.RecommendationSystem.Preferences` | RecommendationSystem.cpp:59-60 | definition of the preferences vector recommend_by_content uses; `GetPreferencesVec` is proved against it |
| `Catalog.RecommendationSystem.ContentSimilarity` | RecommendationSystem.cpp:67 | definition of an unrated movie's similarity to the preferences; used by `ContentRecommendationSpec` |
| `Catalog.RecommendationSystem.ContentRecommendation` | RecommendationSystem.cpp:54-76 | definition of the content recommendation; `RecommendByContent` is proved against it and its properties are in `ContentRecommendationSpec` |
| `Catalog.RecommendationSystem.RecommendByContent` | RecommendationSystem.cpp:54-76 | the loop returns the content recommendation |
| `Catalog.RecommendationSystem.ContentRecommendationSpec` | RecommendationSystem.cpp:54-76 | none exactly when no unrated movie has a defined similarity; else an unrated catalog movie, at least every unrated similarity, above every earlier one, found again by `get_movie` |
| `Catalog.RecommendationSystem.NoContentRecommendationIffAllRated` | RecommendationSystem.cpp:61-75 | with every similarity defined, no recommendation exactly when every catalog movie is rated |
| `Catalog.RecommendationSystem.EqualRatingsGiveNoContentRecommendation` | RecommendationSystem.cpp:54-76 | a user with all ratings equal gets no content recommendation |
| `Catalog.RecommendationSystem.Similarities` | RecommendationSystem.cpp:124-129 | definition of the rated movies' similarities to the target; used by `NeighboursAreTopK` |
| `Catalog.RecommendationSystem.RatedScores` | RecommendationSystem.cpp:122-129 | definition of `movie_scores` in key order; `SimilarityScores` is proved against it |
| `Catalog.RecommendationSystem.Neighbours` | RecommendationSystem.cpp:130-146 | definition of the selected neighbours; its properties are in `NeighboursAreTopK` |
| `Catalog.RecommendationSystem.PredictedScore` | RecommendationSystem.cpp:118-148 | definition of `predict_movie_score`; `PredictMovieScore` is proved against it and its properties are in `PredictionOfEqualRatings` |
| `Catalog.RecommendationSystem.NeighboursAreTopK` | RecommendationSystem.cpp:118-148 | the selected neighbours are k distinct rated movies forming a top-k selection of the similarities |
| `Catalog.RecommendationSystem.PredictionOfEqualRatings` | RecommendationSystem.cpp:118-163 | a user with all ratings c is predicted c |
| `Catalog.RecommendationSystem.SimilarityScores` | RecommendationSystem.cpp:122-129 | the first loop, in any order over the ratings, builds the canonical similarity map |
| `Catalog.RecommendationSystem.CalculateRank` | RecommendationSystem.cpp:150-163 | the loop yields Σ sim·rating / Σ sim over the selection |
| `Catalog.RecommendationSystem.PredictMovieScore` | RecommendationSystem.cpp:118-148 | the prediction is the weighted rank of the top-k neighbours, independent of the ratings' iteration order |
| `Catalog.RecommendationSystem.Predictions` | RecommendationSystem.cpp:97-104 | definition of the predicted scores of the unrated movies; used by `CfRecommendationSpec` |
| `Catalog.RecommendationSystem.CfScores` | RecommendationSystem.cpp:95-104 | definition of `rating_map`; its properties are in `UnratedScoresSpec` |
| `Catalog.RecommendationSystem.CfRecommendation` | RecommendationSystem.cpp:93-116 | definition of the collaborative-filtering recommendation; `RecommendByCf` is proved against it and its properties are in `CfRecommendationSpec` |
| `Catalog.RecommendationSystem.RecommendByCf` | RecommendationSystem.cpp:93-116 | the two loops return the collaborative-filtering recommendation |
| `Catalog.RecommendationSystem.CfRecommendationSpec` | RecommendationSystem.cpp:93-116 | none exactly when every catalog movie is rated; else an unrated movie, at least every unrated prediction, above every earlier one, found again by `get_movie` |
| `Users.User.constructor` | User.cpp:5-9 | stores the name, ratings and catalog reference unchanged |
| `Users.User.AddMovieToRs` | User.cpp:11-17 | the shared catalog maps (name, year) to the features and the ratings map it to the rate; other ratings are kept, and "every rated movie is in the catalog" is preserved |
| `Users.User.GetRecommendationByContent` | User.cpp:19-22 | returns the catalog's content recommendation for this user's ratings |
| `Users.User.GetRecommendationByCf` | User.cpp:24-27 | returns the catalog's cf recommendation for this user's ratings |
| `Users.User.GetPredictionScoreForMovie` | User.cpp:29-35 | the catalog's prediction for the movie `get_movie` finds |

## Left out

- **Printing.** The `operator<<` of Movie, RecommendationSystem and User only formats output.
- **The loader.** UsersLoader.h is not part of this model. It guarantees two things, which the model states as preconditions:
  - `Users.User.Consistent`: every rated movie is in the catalog.
  - `Catalog.RecommendationSystem.Uniform`: every vector has the length of the first.
- **Floating point.** Arithmetic is over `real`, with no rounding and no infinities.
  - A similarity whose denominator is zero (NaN in C++) is `None`. It never replaces a running best, as `NaN > x` is false.
  - The start value `NEG_INF` is "no best yet".
  - A division by zero in `get_user_mean` or `calculate_rank` is excluded by a precondition.
- **Parameters standing in for library calls.**
  - `std::sqrt` is the catalog's constant `sqrt`.
  - `std::hash<std::string>` and `std::hash<int>` are parameters of `Movies.Hash`. Only the 64-bit `size_t` arithmetic around them is modelled.
- **Pointers.** Movie identities are values, so `nullptr` from `get_movie` and the recommendations is `None`. The fresh pointer `add_movie` returns for an existing key is indistinguishable from the stored key, because the code only ever compares movies structurally.
- **Concurrency.** Single-threaded use is assumed.
- **Names.** A movie name is a Dafny `string`, and `Movies.StringLess` compares it code point by code point, shorter prefix first. `std::string`'s `<` compares bytes as `unsigned char`. The two orders agree when a name's characters stand for its bytes one to one, and also for names in UTF-8, whose byte order is code point order. Other encodings are not modelled.
- `Catalog.RecommendationSystem.CanPredict` writes undefined behaviour as requirements. For `predict_movie_score` it requires all of the following; the C++ reads a missing map entry, inserts a null key, or divides by zero otherwise:
  - the target and every rated movie are in the catalog;
  - k is at most the number of rated movies with a defined similarity;
  - the selected similarities do not sum to zero.

  k is a `nat`; a negative k behaves like k = 0 in C++, which divides 0 by 0.
- `Vectors.Dot`: where the second vector is shorter (undefined behaviour in `std::inner_product`), the model stops at its end.
- `Catalog.RecommendationSystem.GetPreferencesVec` requires uniform vector lengths. A shorter vector would leave stale accumulator entries from the previous rating to be added again; a longer one overflows the buffer. Neither is modelled.
- `Catalog.RecommendationSystem.RecommendByContent`: a content recommendation is expected exactly when some catalog movie is unrated. The code also returns `nullptr` when every unrated movie's similarity is NaN, because `cur_similarity > max_val` is false for NaN (RecommendationSystem.cpp:65-67). The model follows the code:
  - `ContentRecommendationSpec` states the general contract.
  - `NoContentRecommendationIffAllRated` states the specified one when every similarity is defined.
  - `EqualRatingsGiveNoContentRecommendation` shows the case where it fails.
- `Catalog.RecommendationSystem.RecommendByCf` keeps each predicted score as `Some(score)`, so it can share the first-maximum scan with `predict_movie_score`. The model never produces a NaN prediction.
