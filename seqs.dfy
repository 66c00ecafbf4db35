/** Facts about lists of ids used by the assignment editor's invariants. */
module Seqs {

  predicate NoDuplicates<T(==)>(s: seq<T>) {
    forall i, j | 0 <= i < j < |s| :: s[i] != s[j]
  }

  function Elements<T>(s: seq<T>): set<T> {
    set x | x in s
  }

  /** A list has at most as many distinct elements as entries, and exactly as many when it has no duplicates. */
  lemma {:induction false} ElementsCard<T>(s: seq<T>)
    ensures |Elements(s)| <= |s|
    ensures NoDuplicates(s) ==> |Elements(s)| == |s|
    ensures |Elements(s)| == |s| ==> NoDuplicates(s)
  {
    if s != [] {
      var t := s[1..];
      ElementsCard(t);
      assert Elements(s) == {s[0]} + Elements(t);
      if s[0] in t {
        assert Elements(s) == Elements(t);
        var j :| 0 <= j < |t| && t[j] == s[0];
        assert s[0] == s[j + 1];
      } else {
        assert |Elements(s)| == |Elements(t)| + 1;
        if |Elements(s)| == |s| {
          assert NoDuplicates(t);
          forall i, j | 0 <= i < j < |s| ensures s[i] != s[j] {
            if i == 0 {
              assert s[j] == t[j - 1];
            } else {
              assert s[i] == t[i - 1] && s[j] == t[j - 1];
            }
          }
        }
      }
      if NoDuplicates(s) {
        assert NoDuplicates(t) by {
          forall i, j | 0 <= i < j < |t| ensures t[i] != t[j] {
            assert t[i] == s[i + 1] && t[j] == s[j + 1];
          }
        }
        assert s[0] !in t by {
          forall j | 0 <= j < |t| ensures t[j] != s[0] {
            assert t[j] == s[j + 1];
          }
        }
      }
    }
  }

  /** A subset at least as large as its superset is the superset. */
  lemma SubsetOfSameSize<T>(a: set<T>, b: set<T>)
    requires a <= b && |a| >= |b|
    ensures a == b
  {
    assert b == a + (b - a);
    assert |b| == |a| + |b - a|;
  }

  /**
   * A list without duplicates, drawn from the entries of `universe` and as long as
   * `universe`, contains every entry of `universe`; and `universe` then has no
   * duplicates either.
   */
  lemma {:induction false} FullDistinctSublistCovers<T>(s: seq<T>, universe: seq<T>)
    requires NoDuplicates(s)
    requires forall i | 0 <= i < |s| :: s[i] in universe
    requires |s| == |universe|
    ensures forall i | 0 <= i < |universe| :: universe[i] in s
    ensures NoDuplicates(universe)
  {
    ElementsCard(s);
    ElementsCard(universe);
    assert Elements(s) <= Elements(universe);
    SubsetOfSameSize(Elements(s), Elements(universe));
    forall i | 0 <= i < |universe| ensures universe[i] in s {
      assert universe[i] in Elements(universe);
    }
  }

  /** Conversely, when `universe` has no duplicates, a sublist that contains every entry of it is as long as it. */
  lemma {:induction false} CoveringDistinctSublistIsFull<T>(s: seq<T>, universe: seq<T>)
    requires NoDuplicates(s) && NoDuplicates(universe)
    requires forall i | 0 <= i < |s| :: s[i] in universe
    requires forall i | 0 <= i < |universe| :: universe[i] in s
    ensures |s| == |universe|
  {
    ElementsCard(s);
    ElementsCard(universe);
    assert Elements(s) == Elements(universe) by {
      forall x | x in Elements(universe) ensures x in Elements(s) {
        var i :| 0 <= i < |universe| && universe[i] == x;
      }
    }
  }
}
