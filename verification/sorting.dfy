/**
 `Array.prototype.sort` with a comparator, on sequences. The comparator is
 abstract: `le(a, b)` stands for `a.localeCompare(b) <= 0`. The sort is an
 insertion sort; its contract states that it permutes its input into
 sorted order.
 */
module Sorting {

  /** The comparator orders every pair and is transitive. */
  ghost predicate TotalPreorder(le: (string, string) -> bool)
  {
    && (forall a, b :: le(a, b) || le(b, a))
    && (forall a, b, c :: le(a, b) && le(b, c) ==> le(a, c))
  }

  ghost predicate SortedBy<T>(xs: seq<T>, key: T -> string, le: (string, string) -> bool)
  {
    forall i, j :: 0 <= i < j < |xs| ==> le(key(xs[i]), key(xs[j]))
  }

  /** Inserts `x` before the first element whose key is not below `x`'s. */
  function Insert<T>(x: T, ys: seq<T>, key: T -> string, le: (string, string) -> bool): (r: seq<T>)
    ensures multiset(r) == multiset(ys) + multiset{x}
    ensures TotalPreorder(le) && SortedBy(ys, key, le) ==> SortedBy(r, key, le)
  {
    if ys == [] then [x]
    else if le(key(x), key(ys[0])) then [x] + ys
    else
      var rest := Insert(x, ys[1..], key, le);
      assert ys == [ys[0]] + ys[1..];
      var r := [ys[0]] + rest;
      assert TotalPreorder(le) && SortedBy(ys, key, le) ==> SortedBy(r, key, le) by {
        if TotalPreorder(le) && SortedBy(ys, key, le) {
          assert SortedBy(ys[1..], key, le);
          forall e | e in rest
            ensures le(key(ys[0]), key(e))
          {
            assert e in multiset(rest);
            if e != x {
              assert e in ys[1..];
            }
          }
          assert forall j :: 0 < j < |r| ==> r[j] == rest[j - 1] && r[j] in rest;
        }
      }
      r
  }

  function Sort<T>(xs: seq<T>, key: T -> string, le: (string, string) -> bool): (r: seq<T>)
    ensures multiset(r) == multiset(xs)
    ensures TotalPreorder(le) ==> SortedBy(r, key, le)
  {
    if xs == [] then []
    else
      assert xs == [xs[0]] + xs[1..];
      Insert(xs[0], Sort(xs[1..], key, le), key, le)
  }

  /** Sorting keeps exactly the elements it was given. */
  lemma SortMembers<T>(xs: seq<T>, key: T -> string, le: (string, string) -> bool)
    ensures forall e :: e in Sort(xs, key, le) <==> e in xs
  {
    var r := Sort(xs, key, le);
    forall e
      ensures e in r <==> e in xs
    {
      assert e in r <==> e in multiset(r);
      assert e in xs <==> e in multiset(xs);
    }
  }
}
