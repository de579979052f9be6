/** The default join-table name of a many-to-many relation: the two table
    names sorted and joined with "_" (`[a, b].sort().join('_')`). */
module JoinTable {

  /** JavaScript's default string order, used by `Array.prototype.sort`:
      element-wise comparison, a proper prefix before any extension. */
  predicate LexLess(a: string, b: string)
    decreases |a|
  {
    if |a| == 0 then |b| > 0
    else if |b| == 0 then false
    else if a[0] != b[0] then a[0] < b[0]
    else LexLess(a[1..], b[1..])
  }

  /** Two distinct strings are ordered one way round, never both. */
  lemma {:induction false} LexTrichotomy(a: string, b: string)
    ensures a != b ==> LexLess(a, b) != LexLess(b, a)
    ensures a == b ==> !LexLess(a, b)
    decreases |a|
  {
    if |a| > 0 && |b| > 0 && a[0] == b[0] {
      LexTrichotomy(a[1..], b[1..]);
      if a[1..] == b[1..] {
        assert a == [a[0]] + a[1..] && b == [b[0]] + b[1..];
      }
    }
  }

  /** The two names in ascending order (a two-element `sort()`). */
  function Sort2(a: string, b: string): (sorted: (string, string))
    ensures multiset{sorted.0, sorted.1} == multiset{a, b}
    ensures !LexLess(sorted.1, sorted.0)
  {
    LexTrichotomy(a, b);
    if LexLess(b, a) then (b, a) else (a, b)
  }

  /** The join-table name used when the relation does not name one. */
  function DefaultJoinTable(a: string, b: string): (name: string)
    ensures exists x, y :: multiset{x, y} == multiset{a, b} && !LexLess(y, x) && name == x + "_" + y
  {
    var sorted := Sort2(a, b);
    sorted.0 + "_" + sorted.1
  }

  /** Swapping the two table names gives the same join-table name. */
  lemma DefaultJoinTableSymmetric(a: string, b: string)
    ensures DefaultJoinTable(a, b) == DefaultJoinTable(b, a)
  {
    LexTrichotomy(a, b);
  }
}
