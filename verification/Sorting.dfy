/** Array.prototype.sort: stable, driven by a comparator.  `before(x, y)` says that the comparator
    puts x strictly before y. */
module Sorting {

  ghost predicate StrictWeakOrder<T(!new)>(before: (T, T) -> bool) {
    && (forall x, y :: before(x, y) ==> !before(y, x))
    && (forall x, y, z :: before(x, z) ==> before(x, y) || before(y, z))
  }

  ghost predicate Sorted<T>(before: (T, T) -> bool, s: seq<T>) {
    forall i, j :: 0 <= i < j < |s| ==> !before(s[j], s[i])
  }

  function Insert<T>(before: (T, T) -> bool, x: T, s: seq<T>): (r: seq<T>)
    ensures |r| == |s| + 1
  {
    if s == [] then [x]
    else if before(s[0], x) then [s[0]] + Insert(before, x, s[1..])
    else [x] + s
  }

  function Sort<T>(before: (T, T) -> bool, s: seq<T>): (r: seq<T>)
    ensures |r| == |s|
  {
    if s == [] then [] else Insert(before, s[0], Sort(before, s[1..]))
  }

  lemma {:induction false} InsertPermutes<T>(before: (T, T) -> bool, x: T, s: seq<T>)
    ensures multiset(Insert(before, x, s)) == multiset(s) + multiset{x}
  {
    if s != [] {
      assert s == [s[0]] + s[1..];
      InsertPermutes(before, x, s[1..]);
    }
  }

  lemma {:induction false} SortPermutes<T>(before: (T, T) -> bool, s: seq<T>)
    ensures multiset(Sort(before, s)) == multiset(s)
  {
    if s != [] {
      assert s == [s[0]] + s[1..];
      SortPermutes(before, s[1..]);
      InsertPermutes(before, s[0], Sort(before, s[1..]));
    }
  }

  lemma {:induction false} InsertSorts<T(!new)>(before: (T, T) -> bool, x: T, s: seq<T>)
    requires StrictWeakOrder(before) && Sorted(before, s)
    ensures Sorted(before, Insert(before, x, s))
  {
    if s == [] {
    } else if before(s[0], x) {
      InsertSorts(before, x, s[1..]);
      var r := Insert(before, x, s[1..]);
      InsertPermutes(before, x, s[1..]);
      forall j | 0 <= j < |r|
        ensures !before(r[j], s[0])
      {
        assert r[j] in multiset(r);
        assert r[j] == x || r[j] in s[1..];
      }
    } else {
      forall j | 0 <= j < |s|
        ensures !before(s[j], x)
      {
        assert j > 0 ==> !before(s[j], s[0]);
      }
    }
  }

  lemma {:induction false} SortSorts<T(!new)>(before: (T, T) -> bool, s: seq<T>)
    requires StrictWeakOrder(before)
    ensures Sorted(before, Sort(before, s))
  {
    if s != [] {
      SortSorts(before, s[1..]);
      InsertSorts(before, s[0], Sort(before, s[1..]));
    }
  }

  ghost predicate NoTies<T>(before: (T, T) -> bool, s: seq<T>) {
    forall i, j :: 0 <= i < |s| && 0 <= j < |s| && s[i] != s[j] ==> before(s[i], s[j]) || before(s[j], s[i])
  }

  lemma HeadsAgree<T(!new)>(before: (T, T) -> bool, s: seq<T>, t: seq<T>)
    requires StrictWeakOrder(before) && Sorted(before, s) && Sorted(before, t) && NoTies(before, s)
    requires s != [] && t != [] && s[0] in t && t[0] in s
    ensures s[0] == t[0]
  {
    var i :| 0 <= i < |t| && t[i] == s[0];
    var j :| 0 <= j < |s| && s[j] == t[0];
    assert j == 0 || !before(s[j], s[0]);
    assert i == 0 || !before(t[i], t[0]);
  }

  lemma SameTails<T>(s: seq<T>, t: seq<T>)
    requires s != [] && t != [] && s[0] == t[0] && multiset(s) == multiset(t)
    ensures multiset(s[1..]) == multiset(t[1..])
  {
    assert s == [s[0]] + s[1..] && t == [t[0]] + t[1..];
    assert multiset(s[1..]) == multiset(s) - multiset{s[0]};
    assert multiset(t[1..]) == multiset(t) - multiset{t[0]};
  }

  lemma TailInherits<T>(before: (T, T) -> bool, s: seq<T>)
    requires s != [] && Sorted(before, s) && NoTies(before, s)
    ensures Sorted(before, s[1..]) && NoTies(before, s[1..])
  {
  }

  /** Two sorted arrangements of the same elements are equal when no two of them tie. */
  lemma {:induction false} SortedUnique<T(!new)>(before: (T, T) -> bool, s: seq<T>, t: seq<T>)
    requires StrictWeakOrder(before) && Sorted(before, s) && Sorted(before, t) && NoTies(before, s)
    requires multiset(s) == multiset(t)
    ensures s == t
  {
    assert |s| == |multiset(s)| == |multiset(t)| == |t|;
    if s != [] {
      assert s[0] in multiset(t) && t[0] in multiset(s);
      HeadsAgree(before, s, t);
      SameTails(s, t);
      TailInherits(before, s);
      assert Sorted(before, t[1..]);
      SortedUnique(before, s[1..], t[1..]);
    }
  }

  /** Sorting forgets the original order of elements that do not tie. */
  lemma SortForgetsOrder<T(!new)>(before: (T, T) -> bool, s: seq<T>, t: seq<T>)
    requires StrictWeakOrder(before) && multiset(s) == multiset(t)
    requires NoTies(before, s)
    ensures Sort(before, s) == Sort(before, t)
  {
    SortSorts(before, s);
    SortSorts(before, t);
    SortPermutes(before, s);
    SortPermutes(before, t);
    var r := Sort(before, s);
    forall i, j | 0 <= i < |r| && 0 <= j < |r| && r[i] != r[j]
      ensures before(r[i], r[j]) || before(r[j], r[i])
    {
      assert r[i] in multiset(s) && r[j] in multiset(s);
    }
    SortedUnique(before, r, Sort(before, t));
  }
}
