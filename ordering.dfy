/** The `orderBy: { createdAt: "desc" }` of the case queries: newest first.
    The database does not promise an order among cases created at the same
    instant, so only the ordering and the permutation are specified. */
module Ordering {
  import opened Domain

  predicate NewestFirst(s: seq<Case>) {
    forall i, j :: 0 <= i < j < |s| ==> s[i].createdAt >= s[j].createdAt
  }

  /** Puts `c` into a newest-first sequence after every newer case. */
  function Insert(c: Case, s: seq<Case>): (r: seq<Case>)
    requires NewestFirst(s)
    ensures NewestFirst(r)
    ensures multiset(r) == multiset(s) + multiset{c}
    ensures |r| == |s| + 1
    ensures r[0] == c || (s != [] && r[0] == s[0])
  {
    if s == [] || c.createdAt >= s[0].createdAt then
      [c] + s
    else
      var rest := Insert(c, s[1..]);
      assert s == [s[0]] + s[1..];
      assert s[0].createdAt >= rest[0].createdAt;
      [s[0]] + rest
  }

  /** The cases ordered newest first. */
  function SortNewestFirst(s: seq<Case>): (r: seq<Case>)
    ensures NewestFirst(r)
    ensures multiset(r) == multiset(s)
    ensures |r| == |s|
  {
    if s == [] then []
    else
      assert s == [s[0]] + s[1..];
      Insert(s[0], SortNewestFirst(s[1..]))
  }
}
