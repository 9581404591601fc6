/** The two selection rules of RecommendationSystem.cpp, over an ordered
    map scanned in key order: the first maximum (a running best that only a
    strictly greater value replaces, starting from "no best yet", where an
    undefined score never replaces anything), and the top-k extraction of
    predict_movie_score (take the current first maximum, erase it, repeat). */
module Selection {
  import opened Wrappers
  import opened Movies
  import opened OrderedMaps

  /** The position the scan ends on, or None when no score is defined. */
  function FirstMax<V>(s: seq<Entry<V>>, score: Entry<V> -> Option<real>): (r: Option<nat>)
    ensures r.Some? ==> r.value < |s| && score(s[r.value]).Some?
    decreases |s|
  {
    if s == [] then None
    else
      var best := FirstMax(s[..|s| - 1], score);
      var last := score(s[|s| - 1]);
      if last.Some? && (best.None? || last.value > score(s[best.value]).value) then Some(|s| - 1)
      else best
  }

  /** The argmax contract: no result exactly when no score is defined;
      otherwise a defined maximum, strictly above every defined score
      before it. */
  lemma {:induction false} FirstMaxSpec<V>(s: seq<Entry<V>>, score: Entry<V> -> Option<real>)
    ensures FirstMax(s, score).None? <==> forall j :: 0 <= j < |s| ==> score(s[j]).None?
    ensures FirstMax(s, score).Some? ==>
      var i := FirstMax(s, score).value;
      (forall j :: 0 <= j < |s| && score(s[j]).Some? ==> score(s[j]).value <= score(s[i]).value) &&
      (forall j :: 0 <= j < i && score(s[j]).Some? ==> score(s[j]).value < score(s[i]).value)
    decreases |s|
  {
    if s != [] {
      var p := s[..|s| - 1];
      FirstMaxSpec(p, score);
      assert forall j :: 0 <= j < |p| ==> p[j] == s[j];
    }
  }

  /** One more step of the scan: the entry at i takes over exactly when its
      score is defined and strictly above the running best. */
  lemma FirstMaxStep<V>(s: seq<Entry<V>>, score: Entry<V> -> Option<real>, i: nat)
    requires i < |s|
    ensures var best := FirstMax(s[..i], score);
      FirstMax(s[..i + 1], score) ==
        if score(s[i]).Some? && (best.None? || score(s[i]).value > score(s[best.value]).value) then Some(i)
        else best
  {
    assert s[..i + 1][..i] == s[..i];
  }

  /** The score of an entry of predict_movie_score's similarity map. */
  function Score(e: Entry<Option<real>>): Option<real> {
    e.val
  }

  /** The rated movies whose similarity is defined. */
  function DefinedKeys(m: map<Movie, Option<real>>): set<Movie> {
    set u | u in m && m[u].Some?
  }

  /** The top-k loop of predict_movie_score: n more rounds, each moving the
      first maximum of s into acc and erasing it from s. A round that finds
      no defined score (excluded by the callers) stops. */
  function Pick(s: seq<Entry<Option<real>>>, n: nat, acc: map<Movie, real>): map<Movie, real>
    decreases n
  {
    if n == 0 then acc
    else match FirstMax(s, Score)
      case None => acc
      case Some(i) => Pick(EraseKey(s, s[i].key), n - 1, acc[s[i].key := s[i].val.value])
  }

  /** m with value v is preferred to u with value w: a larger value, or the
      same value and earlier in movie order. */
  predicate Beats(m: Movie, v: real, u: Movie, w: real) {
    v > w || (v == w && Less(m, u))
  }

  /** chosen is a top-k selection from the scores: k distinct movies with a
      defined score, each preferred to every movie left out. */
  ghost predicate IsTopK(chosen: map<Movie, real>, scores: map<Movie, Option<real>>, k: nat) {
    && |chosen| == k
    && (forall m :: m in chosen ==> m in scores && scores[m] == Some(chosen[m]))
    && (forall m, u :: m in chosen && u in DefinedKeys(scores) && u !in chosen ==>
          Beats(m, chosen[m], u, scores[u].value))
  }

  /** The selection invariant kept by every round: the movies chosen so far
      are no longer candidates and are preferred to every candidate left. */
  ghost predicate SelectionInvariant(acc: map<Movie, real>, rest: map<Movie, Option<real>>) {
    && (forall m :: m in acc ==> m !in rest)
    && (forall m, u :: m in acc && u in DefinedKeys(rest) ==> Beats(m, acc[m], u, rest[u].value))
  }

  /** A scan over candidates with a defined score finds one. */
  lemma FirstMaxFinds(s: seq<Entry<Option<real>>>)
    requires DefinedKeys(ToMap(s)) != {}
    ensures FirstMax(s, Score).Some?
  {
    var u :| u in DefinedKeys(ToMap(s));
    ToMapValue(s, u);
    FirstMaxSpec(s, Score);
  }

  /** One round keeps the selection invariant and uses up one defined score. */
  lemma PickStep(s: seq<Entry<Option<real>>>, acc: map<Movie, real>)
    requires Sorted(s) && SelectionInvariant(acc, ToMap(s))
    requires FirstMax(s, Score).Some?
    ensures
      var i := FirstMax(s, Score).value;
      var x := s[i].key;
      && x in DefinedKeys(ToMap(s))
      && ToMap(s)[x] == s[i].val
      && Sorted(EraseKey(s, x))
      && ToMap(EraseKey(s, x)) == ToMap(s) - {x}
      && DefinedKeys(ToMap(EraseKey(s, x))) == DefinedKeys(ToMap(s)) - {x}
      && SelectionInvariant(acc[x := s[i].val.value], ToMap(EraseKey(s, x)))
  {
    var i := FirstMax(s, Score).value;
    var x := s[i].key;
    var v := s[i].val.value;
    var M := ToMap(s);
    ToMapAt(s, i);
    EraseKeySpec(s, x);
    var M' := ToMap(EraseKey(s, x));
    assert DefinedKeys(M') == DefinedKeys(M) - {x};
    FirstMaxSpec(s, Score);
    var acc' := acc[x := v];
    forall m, u | m in acc' && u in DefinedKeys(M') ensures Beats(m, acc'[m], u, M'[u].value) {
      if m == x {
        var j := IndexOf(s, u);
        ToMapAt(s, j);
        assert Score(s[j]).Some?;
        SortedOrder(s, i, j);
        SortedOrder(s, j, i);
        if j < i {
          assert Score(s[j]).value < v;
        }
      } else {
        assert u in DefinedKeys(M);
      }
    }
  }

  /** What n rounds from acc over the candidates M produce: acc extended
      by n movies, each drawn from M with its score and each preferred to
      every candidate left out. */
  ghost predicate Selected(r: map<Movie, real>, acc: map<Movie, real>, M: map<Movie, Option<real>>, n: nat) {
    && |r| == |acc| + n
    && (forall m :: m in acc ==> m in r && r[m] == acc[m])
    && (forall m :: m in r && m !in acc ==> m in M && M[m] == Some(r[m]))
    && (forall m, u :: m in r && u in DefinedKeys(M) && u !in r ==> Beats(m, r[m], u, M[u].value))
  }

  /** The first round took x with score v; what the remaining rounds select
      over M - {x} is a selection over M. */
  lemma SelectedAfterRound(M: map<Movie, Option<real>>, M': map<Movie, Option<real>>, x: Movie, v: real,
                           acc: map<Movie, real>, acc': map<Movie, real>, r: map<Movie, real>, n: nat)
    requires x in M && M[x] == Some(v) && x !in acc && M' == M - {x} && acc' == acc[x := v]
    requires 0 < n && Selected(r, acc', M', n - 1)
    ensures Selected(r, acc, M, n)
  {
    assert |acc'| == |acc| + 1;
    forall m, u | m in r && u in DefinedKeys(M) && u !in r ensures Beats(m, r[m], u, M[u].value) {
      assert u in DefinedKeys(M');
    }
  }

  /** The first of n rounds, in terms of what it takes and what it leaves. */
  lemma FirstRound(s: seq<Entry<Option<real>>>, n: nat, acc: map<Movie, real>)
    returns (x: Movie, v: real, s': seq<Entry<Option<real>>>)
    requires Sorted(s) && SelectionInvariant(acc, ToMap(s))
    requires 0 < n <= |DefinedKeys(ToMap(s))|
    ensures x in ToMap(s) && ToMap(s)[x] == Some(v) && x !in acc
    ensures Sorted(s') && ToMap(s') == ToMap(s) - {x}
    ensures SelectionInvariant(acc[x := v], ToMap(s'))
    ensures n - 1 <= |DefinedKeys(ToMap(s'))|
    ensures Pick(s, n, acc) == Pick(s', n - 1, acc[x := v])
  {
    FirstMaxFinds(s);
    var i := FirstMax(s, Score).value;
    x := s[i].key;
    v := s[i].val.value;
    PickStep(s, acc);
    s' := EraseKey(s, x);
  }

  /** Rounds that each find a defined score end in a top-k selection. */
  lemma {:induction false} PickSelects(s: seq<Entry<Option<real>>>, n: nat, acc: map<Movie, real>)
    requires Sorted(s) && SelectionInvariant(acc, ToMap(s))
    requires n <= |DefinedKeys(ToMap(s))|
    ensures Selected(Pick(s, n, acc), acc, ToMap(s), n)
    decreases n
  {
    if n > 0 {
      var x, v, s' := FirstRound(s, n, acc);
      ghost var acc' := acc[x := v];
      PickSelects(s', n - 1, acc');
      SelectedAfterRound(ToMap(s), ToMap(s'), x, v, acc, acc', Pick(s, n, acc), n);
    }
  }

  /** predict_movie_score's selection: the first n rounds from nothing. */
  function TopK(s: seq<Entry<Option<real>>>, k: nat): map<Movie, real> {
    Pick(s, k, map[])
  }

  /** With at least k defined scores, TopK is a top-k selection. */
  lemma TopKIsTopK(s: seq<Entry<Option<real>>>, k: nat)
    requires Sorted(s) && k <= |DefinedKeys(ToMap(s))|
    ensures IsTopK(TopK(s, k), ToMap(s), k)
  {
    PickSelects(s, k, map[]);
  }

  /** The scan shared by predict_movie_score and recommend_by_cf: the first
      entry whose value is strictly greater than every defined value before
      it, starting from NEG_INF (None); an undefined value never wins. */
  method FirstMaxScan(s: seq<Entry<Option<real>>>) returns (maxMovie: Option<Movie>, maxVal: Option<real>)
    ensures FirstMax(s, Score).None? ==> maxMovie.None? && maxVal.None?
    ensures FirstMax(s, Score).Some? ==>
      maxMovie == Some(s[FirstMax(s, Score).value].key) && maxVal == s[FirstMax(s, Score).value].val
  {
    maxMovie, maxVal := None, None;
    ghost var best: Option<nat> := None;
    for i := 0 to |s|
      invariant best == FirstMax(s[..i], Score)
      invariant best.None? ==> maxMovie.None? && maxVal.None?
      invariant best.Some? ==> best.value < i && maxMovie == Some(s[best.value].key) && maxVal == s[best.value].val
    {
      FirstMaxStep(s, Score, i);
      var cur := s[i];
      if cur.val.Some? && (maxVal.None? || cur.val.value > maxVal.value) {
        maxMovie := Some(cur.key);
        maxVal := cur.val;
        best := Some(i);
      }
    }
    assert s[..|s|] == s;
  }

  /** One round of SelectTopK on the ordered maps: the found entry is
      defined, both maps stay sorted, one defined score is used up, and the
      rounds still to come are those of Pick. */
  lemma SelectRound(rest: seq<Entry<Option<real>>>, kScores: seq<Entry<real>>, n: nat)
    requires Sorted(rest) && Sorted(kScores) && 0 < n <= |DefinedKeys(ToMap(rest))|
    ensures FirstMax(rest, Score).Some?
    ensures
      var j := FirstMax(rest, Score).value;
      var x := rest[j].key;
      && rest[j].val.Some?
      && Sorted(EraseKey(rest, x))
      && Sorted(Insert(kScores, x, rest[j].val.value))
      && |DefinedKeys(ToMap(EraseKey(rest, x)))| == |DefinedKeys(ToMap(rest))| - 1
      && Pick(EraseKey(rest, x), n - 1, ToMap(Insert(kScores, x, rest[j].val.value)))
         == Pick(rest, n, ToMap(kScores))
  {
    FirstMaxFinds(rest);
    var j := FirstMax(rest, Score).value;
    var x := rest[j].key;
    ToMapAt(rest, j);
    InsertSpec(kScores, x, rest[j].val.value);
    EraseKeySpec(rest, x);
    assert DefinedKeys(ToMap(EraseKey(rest, x))) == DefinedKeys(ToMap(rest)) - {x};
  }

  /** The k rounds of predict_movie_score: take the current first maximum
      of movie_scores, set k_movie_scores[max_movie] = max_val, erase it. */
  method SelectTopK(movieScores: seq<Entry<Option<real>>>, k: nat) returns (kScores: seq<Entry<real>>)
    requires Sorted(movieScores) && k <= |DefinedKeys(ToMap(movieScores))|
    ensures Sorted(kScores) && ToMap(kScores) == TopK(movieScores, k)
  {
    var rest := movieScores;
    kScores := [];
    for i := 0 to k
      invariant Sorted(rest) && Sorted(kScores)
      invariant |DefinedKeys(ToMap(rest))| == |DefinedKeys(ToMap(movieScores))| - i
      invariant Pick(rest, k - i, ToMap(kScores)) == TopK(movieScores, k)
    {
      SelectRound(rest, kScores, k - i);
      var maxMovie, maxVal := FirstMaxScan(rest);
      kScores := Insert(kScores, maxMovie.value, maxVal.value);
      rest := EraseKey(rest, maxMovie.value);
    }
  }

  /** Three rated movies with similarities 0.9, 0.5 and 0.1 in movie order:
      the two rounds pick the first two. */
  lemma TopTwoOfThree(a: Movie, b: Movie, c: Movie)
    requires Less(a, b) && Less(b, c)
    ensures TopK([Entry(a, Some(0.9)), Entry(b, Some(0.5)), Entry(c, Some(0.1))], 2) == map[a := 0.9, b := 0.5]
  {
    var s := [Entry(a, Some(0.9)), Entry(b, Some(0.5)), Entry(c, Some(0.1))];
    LessIrreflexive(a);
    LessAsymmetric(a, b);
    LessAsymmetric(b, c);
    LessTransitive(a, b, c);
    LessAsymmetric(a, c);
    LessIrreflexive(b);
    assert FirstMax(s[..1], Score) == Some(0);
    assert FirstMax(s[..2], Score) == Some(0);
    assert FirstMax(s, Score) == Some(0);
    var t := [Entry(b, Some(0.5)), Entry(c, Some(0.1))];
    assert EraseKey(s, a) == t;
    assert FirstMax(t[..1], Score) == Some(0);
    assert FirstMax(t, Score) == Some(0);
  }
}
