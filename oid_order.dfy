/** Tree order on object identifiers: what IsBefore, IsAfter and IsPrefixOf
    of smi/oid.go mean. IsBefore is lexicographic order on the arcs, but
    non-strict: an OID is "before" itself and before every extension of it. */
module OidOrder {
  import opened Wrappers
  import opened Oid

  /** a and b agree on their first k arcs and a's next arc is the smaller. */
  predicate FirstDifferenceBelow(a: ObjectIdentifier, b: ObjectIdentifier, k: nat) {
    k < |a| && k < |b| && a[..k] == b[..k] && a[k] < b[k]
  }

  /** Lexicographic "before or equal": a is a prefix of b, or the first arc
      where they differ is smaller in a. */
  predicate LexLessOrEqual(a: ObjectIdentifier, b: ObjectIdentifier) {
    (|a| <= |b| && a == b[..|a|]) || exists k: nat | k < |a| :: FirstDifferenceBelow(a, b, k)
  }

  lemma {:induction false} BeforeFromIsLex(a: ObjectIdentifier, b: ObjectIdentifier, i: nat)
    requires i <= |a| && i <= |b| && a[..i] == b[..i]
    decreases |a| - i
    ensures BeforeFrom(a, b, i) <==> LexLessOrEqual(a, b)
  {
    if i == |a| {
      assert a == b[..|a|];
    } else if i == |b| {
      forall k: nat | k < |a| ensures !FirstDifferenceBelow(a, b, k) {
        if k < |b| {
          assert a[..i][k] == b[..i][k];
        }
      }
    } else if a[i] < b[i] {
      assert FirstDifferenceBelow(a, b, i);
    } else if a[i] > b[i] {
      if |a| <= |b| {
        assert a[i] != b[..|a|][i];
      }
      forall k: nat | k < |a| ensures !FirstDifferenceBelow(a, b, k) {
        if k < i {
          assert a[..i][k] == b[..i][k];
        } else if k > i && k < |b| {
          assert a[..k][i] != b[..k][i];
        }
      }
    } else {
      assert a[..i + 1] == b[..i + 1];
      BeforeFromIsLex(a, b, i + 1);
    }
  }

  /** IsBefore is lexicographic order on the arcs, with equality included. */
  lemma IsBeforeIsLexicographic(a: ObjectIdentifier, b: ObjectIdentifier)
    ensures IsBefore(a, b) <==> LexLessOrEqual(a, b)
  {
    BeforeFromIsLex(a, b, 0);
  }

  /** IsBefore is not strict: every OID is before itself (a corollary of the
      contract of IsBefore, an OID being a prefix of itself). */
  lemma IsBeforeReflexive(a: ObjectIdentifier)
    ensures IsBefore(a, a)
  {
  }

  lemma {:induction false} BeforeFromTotal(a: ObjectIdentifier, b: ObjectIdentifier, i: nat)
    requires i <= |a| && i <= |b|
    decreases |a| - i
    ensures BeforeFrom(a, b, i) || BeforeFrom(b, a, i)
  {
    if i < |a| && i < |b| && a[i] == b[i] {
      BeforeFromTotal(a, b, i + 1);
    }
  }

  /** Any two OIDs are ordered one way or the other. */
  lemma IsBeforeTotal(a: ObjectIdentifier, b: ObjectIdentifier)
    ensures IsBefore(a, b) || IsBefore(b, a)
  {
    BeforeFromTotal(a, b, 0);
  }

  lemma {:induction false} BeforeFromAntisymmetric(a: ObjectIdentifier, b: ObjectIdentifier, i: nat)
    requires i <= |a| && i <= |b| && a[..i] == b[..i]
    requires BeforeFrom(a, b, i) && BeforeFrom(b, a, i)
    decreases |a| - i
    ensures a == b
  {
    if i == |a| {
      assert a == a[..i] && b == b[..i];
    } else {
      assert a[..i + 1] == b[..i + 1];
      BeforeFromAntisymmetric(a, b, i + 1);
    }
  }

  /** Two OIDs each before the other are equal. */
  lemma IsBeforeAntisymmetric(a: ObjectIdentifier, b: ObjectIdentifier)
    requires IsBefore(a, b) && IsBefore(b, a)
    ensures a == b
  {
    BeforeFromAntisymmetric(a, b, 0);
  }

  lemma {:induction false} BeforeFromTransitive(a: ObjectIdentifier, b: ObjectIdentifier, c: ObjectIdentifier, i: nat)
    requires i <= |a| && i <= |b| && i <= |c|
    requires BeforeFrom(a, b, i) && BeforeFrom(b, c, i)
    decreases |a| - i
    ensures BeforeFrom(a, c, i)
  {
    if i < |a| && a[i] == b[i] && b[i] == c[i] {
      BeforeFromTransitive(a, b, c, i + 1);
    }
  }

  /** IsBefore is transitive, so it is a total preorder; with antisymmetry,
      a total order. */
  lemma IsBeforeTransitive(a: ObjectIdentifier, b: ObjectIdentifier, c: ObjectIdentifier)
    requires IsBefore(a, b) && IsBefore(b, c)
    ensures IsBefore(a, c)
  {
    BeforeFromTransitive(a, b, c, 0);
  }

  /** A prefix comes before every OID it is a prefix of, and an OID never
      comes before one of its proper prefixes. */
  lemma PrefixOrder(a: ObjectIdentifier, b: ObjectIdentifier)
    ensures IsPrefixOf(a, b) ==> IsBefore(a, b)
    ensures IsPrefixOf(b, a) && a != b ==> !IsBefore(a, b)
  {
    if IsPrefixOf(b, a) && a != b {
      assert IsBefore(b, a);
      if IsBefore(a, b) {
        IsBeforeAntisymmetric(a, b);
      }
    }
  }

  /** IsAfter is the converse of IsBefore, so it too includes equality: it
      holds exactly when a is b or a is not before b, and both hold of a pair
      exactly when the two OIDs are equal. */
  lemma IsAfterCharacterization(a: ObjectIdentifier, b: ObjectIdentifier)
    ensures IsAfter(a, b) <==> a == b || !IsBefore(a, b)
    ensures IsAfter(a, b) && IsBefore(a, b) <==> a == b
  {
    IsBeforeTotal(a, b);
    IsBeforeReflexive(a);
    if IsAfter(a, b) && IsBefore(a, b) {
      IsBeforeAntisymmetric(a, b);
    }
  }

  /** The cases of the source's table tests. */
  lemma ComparisonExamples()
    ensures Equals([1, 2, 3], [1, 2, 3]) && !Equals([1, 2, 3], [1, 2, 3, 4]) && !Equals([1, 2, 3], [1, 2, 4])
    ensures IsBefore([1, 2, 3], [2, 3, 4]) && !IsBefore([2, 3, 4], [1, 2, 3])
    ensures IsAfter([2, 3, 4], [1, 2, 3]) && !IsAfter([1, 2, 3], [2, 3, 4])
    ensures IsPrefixOf([1, 2], [1, 2, 3]) && !IsPrefixOf([1, 3], [1, 2, 3])
    ensures IsScalar([1, 0]) && !IsScalar([1, 2]) && !IsScalar([])
  {
    assert [1, 2, 3] != [1, 2, 4] by { assert [1, 2, 3][2] != [1, 2, 4][2]; }
    assert [1, 3] != [1, 2, 3][..2] by { assert [1, 2, 3][..2][1] == 2; }
  }
}
