/** Movie identities (Movie.cpp): a (name, year) pair, ordered by year and
    then by name, compared for equality as "neither is less than the other",
    and hashed from the two fields. */
module Movies {

  datatype Movie = Movie(name: string, year: int)

  /** Lexicographic order on strings, character by character, as
      std::string's operator< compares them: a proper prefix is smaller. */
  predicate StringLess(s: string, t: string)
    decreases |s|
  {
    if |t| == 0 then false
    else if |s| == 0 then true
    else if s[0] < t[0] then true
    else if s[0] == t[0] then StringLess(s[1..], t[1..])
    else false
  }

  /** operator<: earlier year first; within a year, by name. */
  predicate Less(a: Movie, b: Movie) {
    if a.year < b.year then true
    else if a.year == b.year then StringLess(a.name, b.name)
    else false
  }

  /** sp_movie_equal: neither movie orders before the other. */
  predicate Equal(a: Movie, b: Movie) {
    !Less(a, b) && !Less(b, a)
  }

  // ---------------------------------------------------------------------
  // The string order is a strict total order.

  lemma {:induction false} StringLessIrreflexive(s: string)
    ensures !StringLess(s, s)
    decreases |s|
  {
    if |s| > 0 {
      StringLessIrreflexive(s[1..]);
    }
  }

  lemma {:induction false} StringLessTransitive(s: string, t: string, u: string)
    requires StringLess(s, t) && StringLess(t, u)
    ensures StringLess(s, u)
    decreases |s|
  {
    if |s| > 0 && s[0] == t[0] && t[0] == u[0] {
      StringLessTransitive(s[1..], t[1..], u[1..]);
    }
  }

  lemma {:induction false} StringLessTotal(s: string, t: string)
    ensures s == t || StringLess(s, t) || StringLess(t, s)
    decreases |s|
  {
    if |s| > 0 && |t| > 0 && s[0] == t[0] {
      StringLessTotal(s[1..], t[1..]);
      if s[1..] == t[1..] {
        assert s == [s[0]] + s[1..] && t == [t[0]] + t[1..];
      }
    }
  }

  lemma {:induction false} StringLessAsymmetric(s: string, t: string)
    requires StringLess(s, t)
    ensures !StringLess(t, s)
  {
    if StringLess(t, s) {
      StringLessTransitive(s, t, s);
      StringLessIrreflexive(s);
    }
  }

  // ---------------------------------------------------------------------
  // operator< is a strict total order on (year, name).

  lemma LessIrreflexive(a: Movie)
    ensures !Less(a, a)
  {
    StringLessIrreflexive(a.name);
  }

  lemma LessTransitive(a: Movie, b: Movie, c: Movie)
    requires Less(a, b) && Less(b, c)
    ensures Less(a, c)
  {
    if a.year == b.year && b.year == c.year {
      StringLessTransitive(a.name, b.name, c.name);
    }
  }

  lemma LessAsymmetric(a: Movie, b: Movie)
    requires Less(a, b)
    ensures !Less(b, a)
  {
    if a.year == b.year {
      StringLessAsymmetric(a.name, b.name);
    }
  }

  /** An earlier year orders first, whatever the names. */
  lemma YearDominates(a: Movie, b: Movie)
    requires a.year < b.year
    ensures Less(a, b) && !Less(b, a)
  {
  }

  /** Within one year the order is the string order on names. */
  lemma SameYearByName(a: Movie, b: Movie)
    requires a.year == b.year
    ensures Less(a, b) <==> StringLess(a.name, b.name)
  {
  }

  /** sp_movie_equal holds exactly for structurally identical movies. */
  lemma EqualIsIdentity(a: Movie, b: Movie)
    ensures Equal(a, b) <==> a.name == b.name && a.year == b.year
  {
    StringLessTotal(a.name, b.name);
    StringLessIrreflexive(a.name);
  }

  /** Exactly one of a < b, b < a and sp_movie_equal(a, b) holds. */
  lemma Trichotomy(a: Movie, b: Movie)
    ensures Less(a, b) || Less(b, a) || Equal(a, b)
    ensures !(Less(a, b) && Less(b, a))
    ensures Equal(a, b) ==> !Less(a, b) && !Less(b, a)
  {
    if Less(a, b) {
      LessAsymmetric(a, b);
    }
  }

  // ---------------------------------------------------------------------
  // sp_movie_hash

  const HASH_START: nat := 17
  const RES_MULT: nat := 31
  /** std::size_t arithmetic wraps modulo 2^64. */
  const WORD_MODULUS: nat := 0x1_0000_0000_0000_0000

  type SizeT = x: int | 0 <= x < WORD_MODULUS

  /** sp_movie_hash, with std::hash<std::string> and std::hash<int> given
      as parameters (their values are the standard library's business). */
  function Hash(m: Movie, strHash: string -> SizeT, intHash: int -> SizeT): SizeT {
    var res: int := HASH_START;
    var res1 := (res * RES_MULT + strHash(m.name)) % WORD_MODULUS;
    (res1 * RES_MULT + intHash(m.year)) % WORD_MODULUS
  }

  /** Movies that sp_movie_equal identifies hash alike, so the hash/equal
      pair is a valid key for an unordered map. */
  lemma HashRespectsEqual(a: Movie, b: Movie, strHash: string -> SizeT, intHash: int -> SizeT)
    requires Equal(a, b)
    ensures Hash(a, strHash, intHash) == Hash(b, strHash, intHash)
  {
    EqualIsIdentity(a, b);
  }
}
