/** Facts about finite sets used by the counts the pages show. */
module Sets {

  /** A subset is no larger than its superset. */
  lemma CardinalitySubset<T>(a: set<T>, b: set<T>)
    requires a <= b
    ensures |a| <= |b|
  {
    assert b == a + (b - a);
  }
}
