/** Feature-vector arithmetic of RecommendationSystem.cpp: the inner product
    and calculate_similarity (cosine similarity). std::sqrt is a parameter;
    a zero denominator, where the C++ code computes NaN, gives None. */
module Vectors {
  import opened Wrappers

  /** std::inner_product over the first vector, reading the second in step.
      Where the second is the shorter (undefined behaviour in C++) the
      model stops at its end. */
  function Dot(a: seq<real>, b: seq<real>): real
    decreases |a|
  {
    if a == [] || b == [] then 0.0 else a[0] * b[0] + Dot(a[1..], b[1..])
  }

  /** calculate_similarity: dot(a, b) / (|a| * |b|), each norm the square
      root of a vector's inner product with itself. */
  function CosineSimilarity(a: seq<real>, b: seq<real>, sqrt: real -> real): Option<real>
  {
    var denominator := sqrt(Dot(a, a)) * sqrt(Dot(b, b));
    if denominator == 0.0 then None else Some(Dot(a, b) / denominator)
  }

  lemma {:induction false} DotCommutes(a: seq<real>, b: seq<real>)
    ensures Dot(a, b) == Dot(b, a)
    decreases |a|
  {
    if a != [] && b != [] {
      DotCommutes(a[1..], b[1..]);
    }
  }

  lemma SquareNonNegative(x: real)
    ensures x * x >= 0.0
  {
    if x < 0.0 {
      var y := -x;
      assert x * x == y * y;
    }
  }

  /** The square root is only ever applied to a non-negative number, and
      to zero for the zero vector. */
  lemma {:induction false} DotSelf(a: seq<real>)
    ensures Dot(a, a) >= 0.0
    ensures (forall i :: 0 <= i < |a| ==> a[i] == 0.0) ==> Dot(a, a) == 0.0
    decreases |a|
  {
    if a != [] {
      DotSelf(a[1..]);
      SquareNonNegative(a[0]);
      if forall i :: 0 <= i < |a| ==> a[i] == 0.0 {
        assert forall i :: 0 <= i < |a[1..]| ==> a[1..][i] == 0.0;
      }
    }
  }

  /** Similarity is symmetric, whatever the square-root function. */
  lemma SimilaritySymmetric(a: seq<real>, b: seq<real>, sqrt: real -> real)
    ensures CosineSimilarity(a, b, sqrt) == CosineSimilarity(b, a, sqrt)
  {
    DotCommutes(a, b);
  }

  /** A non-zero real has a positive square. The square is returned as an
      out-parameter so that callers see it as a single term. */
  lemma PosSquare(x: real) returns (sq: real)
    requires x != 0.0
    ensures sq == x * x && sq > 0.0
  {
    sq := x * x;
    if x > 0.0 {
      assert sq / x == x;
    } else {
      var y := -x;
      assert sq == y * y;
      assert sq / y == y;
    }
  }

  /** The first step of Dot(a, a), with its two summands named. */
  lemma DotHead(a: seq<real>) returns (sq: real, rest: real)
    requires a != []
    ensures sq == a[0] * a[0] && rest == Dot(a[1..], a[1..]) && Dot(a, a) == sq + rest
  {
    sq, rest := a[0] * a[0], Dot(a[1..], a[1..]);
  }

  /** A vector with a non-zero component has a positive squared norm. */
  lemma {:induction false} NonZeroDot(a: seq<real>, i: nat)
    requires i < |a| && a[i] != 0.0
    ensures Dot(a, a) > 0.0
    decreases |a|
  {
    var sq, rest := DotHead(a);
    DotSelf(a[1..]);
    if i == 0 {
      var p := PosSquare(a[0]);
      assert p == sq;
    } else {
      assert a[1..][i - 1] == a[i];
      NonZeroDot(a[1..], i - 1);
      SquareNonNegative(a[0]);
    }
  }

  /** A non-zero vector is similar to itself with value 1, given that the
      square root squares back to its argument there. */
  lemma SelfSimilarity(a: seq<real>, i: nat, sqrt: real -> real)
    requires i < |a| && a[i] != 0.0
    requires sqrt(Dot(a, a)) * sqrt(Dot(a, a)) == Dot(a, a)
    ensures CosineSimilarity(a, a, sqrt) == Some(1.0)
  {
    NonZeroDot(a, i);
    var d := Dot(a, a);
    var denominator := sqrt(d) * sqrt(d);
    assert denominator == d;
    assert d != 0.0;
    assert CosineSimilarity(a, a, sqrt).value == d / denominator;
    assert d / denominator == d / d == 1.0;
  }

  /** A zero vector has no similarity to anything when sqrt(0) = 0: this is
      the case where the C++ code divides 0 by 0. */
  lemma ZeroVectorHasNoSimilarity(a: seq<real>, b: seq<real>, sqrt: real -> real)
    requires forall i :: 0 <= i < |b| ==> b[i] == 0.0
    requires sqrt(0.0) == 0.0
    ensures CosineSimilarity(a, b, sqrt).None?
  {
    DotSelf(b);
  }
}
