/** The two list idioms the components use on their state: `filter` and `map` with a conditional update. */
module Seqs {

  /** `r` is an order-preserving subsequence of `s`. */
  ghost predicate Subseq<T(!new)>(r: seq<T>, s: seq<T>)
    decreases |s|
  {
    if r == [] then true
    else if s == [] then false
    else if r[0] == s[0] then Subseq(r[1..], s[1..])
    else Subseq(r, s[1..])
  }

  lemma {:induction false} SubseqOfItself<T(!new)>(s: seq<T>)
    ensures Subseq(s, s)
  {
    if s != [] {
      SubseqOfItself(s[1..]);
    }
  }

  /** `Array.prototype.filter`. */
  function Filter<T(!new)>(s: seq<T>, keep: T -> bool): (r: seq<T>)
    ensures |r| <= |s|
    ensures forall x :: x in r <==> x in s && keep(x)
    ensures multiset(r) <= multiset(s)
    ensures forall x :: multiset(r)[x] == if keep(x) then multiset(s)[x] else 0
    ensures Subseq(r, s)
  {
    if s == [] then []
    else
      var rest := Filter(s[1..], keep);
      assert s == [s[0]] + s[1..];
      assert multiset(s) == multiset{s[0]} + multiset(s[1..]);
      if keep(s[0]) then
        assert multiset([s[0]] + rest) == multiset{s[0]} + multiset(rest);
        [s[0]] + rest
      else rest
  }

  lemma {:induction false} FilterKeepsAll<T(!new)>(s: seq<T>, keep: T -> bool)
    requires forall x :: x in s ==> keep(x)
    ensures Filter(s, keep) == s
  {
    if s != [] {
      FilterKeepsAll(s[1..], keep);
    }
  }

  lemma {:induction false} FilterDropsAll<T(!new)>(s: seq<T>, keep: T -> bool)
    requires forall x :: x in s ==> !keep(x)
    ensures Filter(s, keep) == []
  {
    if s != [] {
      FilterDropsAll(s[1..], keep);
    }
  }

  /** Two predicates that agree on the elements of `s` select the same subsequence. */
  lemma {:induction false} FilterAgrees<T(!new)>(s: seq<T>, f: T -> bool, g: T -> bool)
    requires forall x :: x in s ==> f(x) == g(x)
    ensures Filter(s, f) == Filter(s, g)
  {
    if s != [] {
      FilterAgrees(s[1..], f, g);
    }
  }

  /** `s.map(x => sel(x) ? f(x) : x)`: the selected elements are rewritten, the others kept, in place. */
  function UpdateWhere<T(!new)>(s: seq<T>, sel: T -> bool, f: T -> T): (r: seq<T>)
    ensures |r| == |s|
    ensures forall i :: 0 <= i < |s| && sel(s[i]) ==> r[i] == f(s[i])
    ensures forall i :: 0 <= i < |s| && !sel(s[i]) ==> r[i] == s[i]
  {
    if s == [] then []
    else [if sel(s[0]) then f(s[0]) else s[0]] + UpdateWhere(s[1..], sel, f)
  }

  /** Rewriting the selected elements a second time changes nothing when the rewrite is idempotent
      and keeps them selected. */
  lemma UpdateWhereTwice<T(!new)>(s: seq<T>, sel: T -> bool, f: T -> T)
    requires forall x :: sel(x) ==> sel(f(x)) && f(f(x)) == f(x)
    ensures UpdateWhere(UpdateWhere(s, sel, f), sel, f) == UpdateWhere(s, sel, f)
  {
    var once := UpdateWhere(s, sel, f);
    var twice := UpdateWhere(once, sel, f);
    forall i | 0 <= i < |s|
      ensures twice[i] == once[i]
    {
      if sel(s[i]) {
        assert once[i] == f(s[i]);
      }
    }
  }
}
