/** The order in which SQLite's default BINARY collation sorts text, used by
    the charts' `ORDER BY ... artist ASC`: character by character on code
    points (which is byte order on UTF-8), a proper prefix first. */
module Collation {
  /** `a` sorts no later than `b`. */
  predicate LexLeq(a: string, b: string)
    decreases |a|
  {
    |a| == 0 || (|b| != 0 && (a[0] < b[0] || (a[0] == b[0] && LexLeq(a[1..], b[1..]))))
  }

  lemma {:induction false} LexLeqTotal(a: string, b: string)
    ensures LexLeq(a, b) || LexLeq(b, a)
    decreases |a|
  {
    if |a| != 0 && |b| != 0 && a[0] == b[0] {
      LexLeqTotal(a[1..], b[1..]);
    }
  }

  lemma {:induction false} LexLeqTransitive(a: string, b: string, c: string)
    requires LexLeq(a, b) && LexLeq(b, c)
    ensures LexLeq(a, c)
    decreases |a|
  {
    if |a| != 0 && a[0] == b[0] && b[0] == c[0] {
      LexLeqTransitive(a[1..], b[1..], c[1..]);
    }
  }
}
