/** std::map<sp_movie, V, sp_movie_comparator>: an ordered map keyed by
    movies under operator<. It is modelled as a sequence of entries strictly
    sorted by Movies.Less, which is also its iteration order; ToMap gives
    the key/value view. */
module OrderedMaps {
  import opened Wrappers
  import opened Movies

  datatype Entry<V> = Entry(key: Movie, val: V)

  ghost predicate Sorted<V>(s: seq<Entry<V>>) {
    forall i, j :: 0 <= i < j < |s| ==> Less(s[i].key, s[j].key)
  }

  /** Every key of s orders before x. */
  ghost predicate Below<V>(s: seq<Entry<V>>, x: Movie) {
    forall i :: 0 <= i < |s| ==> Less(s[i].key, x)
  }

  function ToMap<V>(s: seq<Entry<V>>): map<Movie, V> {
    if s == [] then map[] else ToMap(s[1..])[s[0].key := s[0].val]
  }

  /** map::find: the position of the entry equivalent to m under the
      comparator, if any. */
  function FindIndex<V>(s: seq<Entry<V>>, m: Movie): (r: Option<nat>)
    ensures r.Some? ==> r.value < |s| && Equal(s[r.value].key, m)
    ensures r.None? ==> forall i :: 0 <= i < |s| ==> !Equal(s[i].key, m)
    decreases |s|
  {
    if s == [] then None
    else if Equal(s[0].key, m) then Some(0)
    else match FindIndex(s[1..], m)
      case None => None
      case Some(i) => Some(i + 1)
  }

  /** The value stored under m (map::find followed by ->second). */
  function Lookup<V>(s: seq<Entry<V>>, m: Movie): Option<V> {
    match FindIndex(s, m)
    case None => None
    case Some(i) => Some(s[i].val)
  }

  /** map[m] = v: overwrite the value of the entry equivalent to m, keeping
      its stored key, or insert a new entry at its place in the order. */
  function Insert<V>(s: seq<Entry<V>>, m: Movie, v: V): seq<Entry<V>>
    decreases |s|
  {
    if s == [] then [Entry(m, v)]
    else if Less(m, s[0].key) then [Entry(m, v)] + s
    else if Less(s[0].key, m) then [s[0]] + Insert(s[1..], m, v)
    else [Entry(s[0].key, v)] + s[1..]
  }

  /** map::erase(m): remove the entry equivalent to m, if any. */
  function EraseKey<V>(s: seq<Entry<V>>, m: Movie): seq<Entry<V>>
    decreases |s|
  {
    if s == [] then []
    else if Equal(s[0].key, m) then s[1..]
    else [s[0]] + EraseKey(s[1..], m)
  }

  // ---------------------------------------------------------------------
  // The key/value view.

  lemma {:induction false} ToMapKeys<V>(s: seq<Entry<V>>)
    ensures forall k :: k in ToMap(s) <==> exists i :: 0 <= i < |s| && s[i].key == k
    decreases |s|
  {
    if s != [] {
      ToMapKeys(s[1..]);
      forall k | k in ToMap(s) ensures exists i :: 0 <= i < |s| && s[i].key == k {
        if k != s[0].key {
          assert k in ToMap(s[1..]);
          var i :| 0 <= i < |s[1..]| && s[1..][i].key == k;
          assert s[i + 1].key == k;
        }
      }
      forall i | 0 <= i < |s| ensures s[i].key in ToMap(s) {
        if i > 0 {
          assert s[1..][i - 1].key == s[i].key;
        }
      }
    }
  }

  /** Every stored key is a key of the view. */
  lemma KeysInView<V>(s: seq<Entry<V>>)
    ensures forall j :: 0 <= j < |s| ==> s[j].key in ToMap(s)
  {
    ToMapKeys(s);
  }

  /** The position of a key present in the view. */
  lemma IndexOf<V>(s: seq<Entry<V>>, k: Movie) returns (i: nat)
    requires k in ToMap(s)
    ensures i < |s| && s[i].key == k
  {
    ToMapKeys(s);
    i :| 0 <= i < |s| && s[i].key == k;
  }

  /** Each value of the view is the value of some entry with that key. */
  lemma {:induction false} ToMapValue<V>(s: seq<Entry<V>>, k: Movie)
    requires k in ToMap(s)
    ensures exists j :: 0 <= j < |s| && s[j].key == k && s[j].val == ToMap(s)[k]
    decreases |s|
  {
    if s[0].key != k {
      ToMapValue(s[1..], k);
      var j :| 0 <= j < |s[1..]| && s[1..][j].key == k && s[1..][j].val == ToMap(s[1..])[k];
      assert s[j + 1] == s[1..][j];
    }
  }

  /** In a sorted sequence the view maps each entry's key to its value. */
  lemma {:induction false} ToMapAt<V>(s: seq<Entry<V>>, i: nat)
    requires Sorted(s) && i < |s|
    ensures s[i].key in ToMap(s) && ToMap(s)[s[i].key] == s[i].val
    decreases |s|
  {
    if i > 0 {
      ToMapAt(s[1..], i - 1);
      LessIrreflexive(s[0].key);
      assert s[0].key != s[i].key;
    }
  }

  lemma SortedTail<V>(s: seq<Entry<V>>)
    requires Sorted(s) && s != []
    ensures Sorted(s[1..])
    ensures forall k :: k in ToMap(s[1..]) ==> Less(s[0].key, k)
    ensures s[0].key !in ToMap(s[1..])
  {
    ToMapKeys(s[1..]);
    forall k | k in ToMap(s[1..]) ensures Less(s[0].key, k) {
      var i :| 0 <= i < |s| - 1 && s[1..][i].key == k;
      assert s[i + 1].key == k;
    }
    LessIrreflexive(s[0].key);
  }

  lemma SortedCons<V>(e: Entry<V>, t: seq<Entry<V>>)
    requires Sorted(t)
    requires forall k :: k in ToMap(t) ==> Less(e.key, k)
    ensures Sorted([e] + t)
  {
    ToMapKeys(t);
    var s := [e] + t;
    forall i, j | 0 <= i < j < |s| ensures Less(s[i].key, s[j].key) {
      if i == 0 {
        assert t[j - 1].key == s[j].key;
      } else {
        assert t[i - 1] == s[i] && t[j - 1] == s[j];
      }
    }
  }

  lemma SortedSnoc<V>(s: seq<Entry<V>>, e: Entry<V>)
    requires Sorted(s) && Below(s, e.key)
    ensures Sorted(s + [e])
  {
  }

  /** A sorted sequence has as many entries as its view has keys. */
  lemma {:induction false} SortedSize<V>(s: seq<Entry<V>>)
    requires Sorted(s)
    ensures |ToMap(s)| == |s|
    decreases |s|
  {
    if s != [] {
      SortedTail(s);
      SortedSize(s[1..]);
    }
  }

  /** Positions in a sorted sequence follow the key order. */
  lemma SortedOrder<V>(s: seq<Entry<V>>, i: nat, j: nat)
    requires Sorted(s) && i < |s| && j < |s|
    ensures Less(s[i].key, s[j].key) <==> i < j
  {
    if i == j {
      LessIrreflexive(s[i].key);
    } else if j < i {
      LessAsymmetric(s[j].key, s[i].key);
    }
  }

  /** Appending after every key extends the view. */
  lemma {:induction false} ToMapSnoc<V>(s: seq<Entry<V>>, e: Entry<V>)
    requires e.key !in ToMap(s)
    ensures ToMap(s + [e]) == ToMap(s)[e.key := e.val]
    decreases |s|
  {
    if s != [] {
      assert (s + [e])[1..] == s[1..] + [e];
      ToMapSnoc(s[1..], e);
    }
  }

  /** Below in terms of the view. */
  lemma BelowView<V>(s: seq<Entry<V>>, x: Movie)
    ensures Below(s, x) <==> forall k :: k in ToMap(s) ==> Less(k, x)
  {
    ToMapKeys(s);
  }

  /** A key above every stored key is not stored. */
  lemma BelowNotIn<V>(s: seq<Entry<V>>, x: Movie)
    requires Below(s, x)
    ensures x !in ToMap(s)
  {
    ToMapKeys(s);
    LessIrreflexive(x);
  }

  /** A sorted sequence is a sorted prefix followed by an entry above it. */
  lemma SortedInit<V>(s: seq<Entry<V>>)
    requires Sorted(s) && s != []
    ensures Sorted(s[..|s| - 1]) && Below(s[..|s| - 1], s[|s| - 1].key)
    ensures s[|s| - 1].key !in ToMap(s[..|s| - 1])
    ensures ToMap(s) == ToMap(s[..|s| - 1])[s[|s| - 1].key := s[|s| - 1].val]
  {
    var p, e := s[..|s| - 1], s[|s| - 1];
    assert s == p + [e];
    BelowNotIn(p, e.key);
    ToMapSnoc(p, e);
  }

  /** A sorted sequence is determined by its view. */
  lemma {:induction false} SortedUnique<V>(s: seq<Entry<V>>, t: seq<Entry<V>>)
    requires Sorted(s) && Sorted(t) && ToMap(s) == ToMap(t)
    ensures s == t
    decreases |s|
  {
    SortedSize(s);
    SortedSize(t);
    if s != [] {
      SortedTail(s);
      SortedTail(t);
      assert s[0].key in ToMap(s) && t[0].key in ToMap(t);
      if s[0].key != t[0].key {
        assert s[0].key in ToMap(t[1..]);
        assert t[0].key in ToMap(s[1..]);
        LessAsymmetric(s[0].key, t[0].key);
      }
      assert ToMap(s[1..]) == ToMap(s) - {s[0].key};
      assert ToMap(t[1..]) == ToMap(t) - {t[0].key};
      SortedUnique(s[1..], t[1..]);
      assert s == [s[0]] + s[1..] && t == [t[0]] + t[1..];
    }
  }

  // ---------------------------------------------------------------------
  // The map operations against the view.

  /** map::find succeeds exactly for keys of the view, at the entry that
      holds that very key. */
  lemma FindIndexSpec<V>(s: seq<Entry<V>>, m: Movie)
    requires Sorted(s)
    ensures FindIndex(s, m).Some? <==> m in ToMap(s)
    ensures FindIndex(s, m).Some? ==> s[FindIndex(s, m).value].key == m
    ensures Lookup(s, m).Some? <==> m in ToMap(s)
    ensures m in ToMap(s) ==> Lookup(s, m) == Some(ToMap(s)[m])
  {
    match FindIndex(s, m)
    case None =>
      if m in ToMap(s) {
        var i := IndexOf(s, m);
        EqualIsIdentity(s[i].key, m);
      }
    case Some(i) =>
      EqualIsIdentity(s[i].key, m);
      ToMapAt(s, i);
  }

  lemma {:induction false} InsertSpec<V>(s: seq<Entry<V>>, m: Movie, v: V)
    requires Sorted(s)
    ensures Sorted(Insert(s, m, v))
    ensures ToMap(Insert(s, m, v)) == ToMap(s)[m := v]
    decreases |s|
  {
    if s != [] {
      SortedTail(s);
      if Less(m, s[0].key) {
        forall k | k in ToMap(s) ensures Less(m, k) {
          if k != s[0].key {
            LessTransitive(m, s[0].key, k);
          }
        }
        SortedCons(Entry(m, v), s);
      } else if Less(s[0].key, m) {
        InsertSpec(s[1..], m, v);
        SortedCons(s[0], Insert(s[1..], m, v));
        LessIrreflexive(m);
        assert ToMap(Insert(s, m, v)) == ToMap(s)[m := v];
      } else {
        EqualIsIdentity(s[0].key, m);
        SortedCons(Entry(s[0].key, v), s[1..]);
        assert ToMap(Insert(s, m, v)) == ToMap(s)[m := v];
      }
    }
  }

  /** Inserting a key above every stored key appends it. */
  lemma {:induction false} InsertLast<V>(s: seq<Entry<V>>, m: Movie, v: V)
    requires Below(s, m)
    ensures Insert(s, m, v) == s + [Entry(m, v)]
    decreases |s|
  {
    if s != [] {
      LessAsymmetric(s[0].key, m);
      InsertLast(s[1..], m, v);
    }
  }

  lemma {:induction false} EraseKeySpec<V>(s: seq<Entry<V>>, m: Movie)
    requires Sorted(s)
    ensures Sorted(EraseKey(s, m))
    ensures ToMap(EraseKey(s, m)) == ToMap(s) - {m}
    decreases |s|
  {
    if s != [] {
      SortedTail(s);
      EqualIsIdentity(s[0].key, m);
      if Equal(s[0].key, m) {
        assert ToMap(s[1..]) == ToMap(s) - {m};
      } else {
        EraseKeySpec(s[1..], m);
        SortedCons(s[0], EraseKey(s[1..], m));
        assert ToMap(EraseKey(s, m)) == ToMap(s) - {m};
      }
    }
  }
}
