/** Shared vocabulary: optional values, results, and the ordering facts behind `ORDER BY` and `list.sort`. */
module Common {

  datatype Option<+T> = None | Some(value: T)

  datatype Result<+T, +E> = Ok(value: T) | Err(error: E)

  ghost predicate TotalPreorder<T(!new)>(le: (T, T) -> bool)
  {
    && (forall x, y :: le(x, y) || le(y, x))
    && (forall x, y, z :: le(x, y) && le(y, z) ==> le(x, z))
  }

  ghost predicate Sorted<T>(le: (T, T) -> bool, s: seq<T>)
  {
    forall i, j :: 0 <= i < j < |s| ==> le(s[i], s[j])
  }

  ghost predicate AntisymmetricOn<T>(le: (T, T) -> bool, s: seq<T>)
  {
    forall i, j :: 0 <= i < |s| && 0 <= j < |s| && le(s[i], s[j]) && le(s[j], s[i]) ==> s[i] == s[j]
  }

  function Insert<T>(le: (T, T) -> bool, x: T, s: seq<T>): seq<T>
  {
    if s == [] || le(x, s[0]) then [x] + s else [s[0]] + Insert(le, x, s[1..])
  }

  /** A stable sort, standing for SQL's `ORDER BY` and Python's `list.sort`. */
  function Sort<T>(le: (T, T) -> bool, s: seq<T>): seq<T>
  {
    if s == [] then [] else Insert(le, s[0], Sort(le, s[1..]))
  }

  lemma {:induction false} InsertPermutes<T>(le: (T, T) -> bool, x: T, s: seq<T>)
    ensures multiset(Insert(le, x, s)) == multiset([x] + s)
  {
    if s == [] || le(x, s[0]) {
    } else {
      InsertPermutes(le, x, s[1..]);
      assert s == [s[0]] + s[1..];
      assert multiset([s[0]] + Insert(le, x, s[1..])) == multiset{s[0]} + multiset([x] + s[1..]);
    }
  }

  lemma {:induction false} SortPermutes<T>(le: (T, T) -> bool, s: seq<T>)
    ensures multiset(Sort(le, s)) == multiset(s)
    ensures |Sort(le, s)| == |s|
  {
    if s != [] {
      SortPermutes(le, s[1..]);
      InsertPermutes(le, s[0], Sort(le, s[1..]));
      assert s == [s[0]] + s[1..];
    }
    assert |multiset(Sort(le, s))| == |Sort(le, s)|;
    assert |multiset(s)| == |s|;
  }

  lemma {:induction false} InsertSorted<T(!new)>(le: (T, T) -> bool, x: T, s: seq<T>)
    requires TotalPreorder(le) && Sorted(le, s)
    ensures Sorted(le, Insert(le, x, s))
  {
    if s == [] || le(x, s[0]) {
    } else {
      InsertSorted(le, x, s[1..]);
      InsertPermutes(le, x, s[1..]);
      var r := Insert(le, x, s[1..]);
      forall k | 0 <= k < |r|
        ensures le(s[0], r[k])
      {
        assert r[k] in multiset(r);
        assert r[k] in multiset([x] + s[1..]);
      }
    }
  }

  lemma {:induction false} SortSorted<T(!new)>(le: (T, T) -> bool, s: seq<T>)
    requires TotalPreorder(le)
    ensures Sorted(le, Sort(le, s))
  {
    if s != [] {
      SortSorted(le, s[1..]);
      InsertSorted(le, s[0], Sort(le, s[1..]));
    }
  }

  lemma SameHead<T(!new)>(le: (T, T) -> bool, a: seq<T>, b: seq<T>)
    requires Sorted(le, a) && Sorted(le, b) && multiset(a) == multiset(b) && a != [] && b != []
    requires AntisymmetricOn(le, a)
    ensures a[0] == b[0]
  {
    assert a[0] in multiset(b) && b[0] in multiset(a);
    var i :| 0 <= i < |b| && b[i] == a[0];
    var j :| 0 <= j < |a| && a[j] == b[0];
    if i != 0 && j != 0 {
      assert le(a[0], a[j]) && le(b[0], b[i]);
      assert le(a[j], a[0]);
    }
  }

  lemma MultisetTail<T>(s: seq<T>)
    requires s != []
    ensures multiset(s[1..]) == multiset(s) - multiset{s[0]}
  {
    HeadAndTail(s);
    assert multiset([s[0]] + s[1..]) == multiset{s[0]} + multiset(s[1..]);
  }

  lemma SameSize<T>(a: seq<T>, b: seq<T>)
    requires multiset(a) == multiset(b)
    ensures |a| == |b|
  {
    assert |multiset(a)| == |a| && |multiset(b)| == |b|;
  }

  /** Two sorted listings of the same rows are the same listing. */
  lemma {:induction false} SortedUnique<T(!new)>(le: (T, T) -> bool, a: seq<T>, b: seq<T>)
    requires Sorted(le, a) && Sorted(le, b) && multiset(a) == multiset(b)
    requires AntisymmetricOn(le, a)
    ensures a == b
  {
    SameSize(a, b);
    if a != [] {
      SameHead(le, a, b);
      MultisetTail(a);
      MultisetTail(b);
      SortedUnique(le, a[1..], b[1..]);
      HeadAndTail(a);
      HeadAndTail(b);
    }
  }

  function Map<T, U>(f: T -> U, s: seq<T>): (r: seq<U>)
    ensures |r| == |s|
    ensures forall i :: 0 <= i < |s| ==> r[i] == f(s[i])
  {
    seq(|s|, i requires 0 <= i < |s| => f(s[i]))
  }

  lemma {:induction false} InsertMap<T(!new)>(le: (T, T) -> bool, f: T -> T, x: T, s: seq<T>)
    requires forall y, z :: le(f(y), f(z)) == le(y, z)
    ensures Insert(le, f(x), Map(f, s)) == Map(f, Insert(le, x, s))
  {
    if s != [] && !le(x, s[0]) {
      InsertMap(le, f, x, s[1..]);
      assert Map(f, s)[1..] == Map(f, s[1..]);
    }
  }

  /** A rewrite that does not touch the sort key commutes with sorting. */
  lemma {:induction false} SortMap<T(!new)>(le: (T, T) -> bool, f: T -> T, s: seq<T>)
    requires forall y, z :: le(f(y), f(z)) == le(y, z)
    ensures Sort(le, Map(f, s)) == Map(f, Sort(le, s))
  {
    if s != [] {
      SortMap(le, f, s[1..]);
      InsertMap(le, f, s[0], Sort(le, s[1..]));
      assert Map(f, s)[1..] == Map(f, s[1..]);
    }
  }

  // ----- cutting and joining sequences

  lemma CutAppend<T>(a: seq<T>, b: seq<T>)
    ensures (a + b)[..|a|] == a && (a + b)[|a|..] == b
  {
  }

  lemma CutInside<T>(a: seq<T>, b: seq<T>, n: nat)
    requires n <= |a|
    ensures (a + b)[..n] == a[..n] && (a + b)[n..] == a[n..] + b
  {
  }

  lemma CutAndJoin<T>(s: seq<T>, n: nat)
    requires n <= |s|
    ensures s[..n] + s[n..] == s
  {
  }

  lemma TakeOneMore<T>(s: seq<T>, n: nat)
    requires n < |s|
    ensures s[..n + 1] == s[..n] + [s[n]]
  {
  }

  lemma AppendAssociates<T>(a: seq<T>, b: seq<T>, c: seq<T>)
    ensures (a + b) + c == a + (b + c)
  {
  }

  lemma AppendNothing<T>(s: seq<T>)
    ensures s + [] == s
  {
  }

  lemma HeadAndTail<T>(s: seq<T>)
    requires s != []
    ensures [s[0]] + s[1..] == s
  {
  }

  lemma CountedTwice<T>(s: seq<T>, i: nat, j: nat)
    requires i < j < |s| && s[i] == s[j]
    ensures multiset(s)[s[i]] >= 2
  {
    assert s == s[..j] + [s[j]] + s[j + 1..];
    assert s[i] in s[..j];
  }

  // ----- counting

  function CountWhere<T>(s: seq<T>, p: T -> bool): nat
  {
    if s == [] then 0 else CountWhere(s[..|s| - 1], p) + (if p(s[|s| - 1]) then 1 else 0)
  }

  /** The count is the number of places at which the condition holds. */
  lemma {:induction false} CountIsSize<T>(s: seq<T>, p: T -> bool)
    ensures CountWhere(s, p) == |set k | 0 <= k < |s| && p(s[k])|
  {
    if s != [] {
      var n := |s| - 1;
      CountIsSize(s[..n], p);
      var before, all := set k | 0 <= k < n && p(s[..n][k]), set k | 0 <= k < |s| && p(s[k]);
      assert forall k :: 0 <= k < n ==> s[..n][k] == s[k];
      if p(s[n]) { assert all == before + {n}; } else { assert all == before; }
    }
  }

  lemma CountIsSizeOf<T>(s: seq<T>, p: T -> bool, places: set<int>)
    requires forall k :: k in places <==> 0 <= k < |s| && p(s[k])
    ensures CountWhere(s, p) == |places|
  {
    CountIsSize(s, p);
    assert places == set k | 0 <= k < |s| && p(s[k]);
  }

  // ----- sequences without repetition

  predicate Distinct<T(==)>(s: seq<T>)
  {
    forall i, j :: 0 <= i < j < |s| ==> s[i] != s[j]
  }

  ghost predicate Disjoint<T(!new)>(a: seq<T>, b: seq<T>)
  {
    forall x :: x in a ==> x !in b
  }

  lemma DistinctConcat<T(!new)>(a: seq<T>, b: seq<T>)
    ensures Distinct(a + b) <==> Distinct(a) && Distinct(b) && Disjoint(a, b)
  {
    var s := a + b;
    if Distinct(s) {
      assert forall i :: 0 <= i < |a| ==> s[i] == a[i];
      assert forall k :: 0 <= k < |b| ==> s[|a| + k] == b[k];
    }
    if Distinct(a) && Distinct(b) && Disjoint(a, b) {
      forall i, j | 0 <= i < j < |s| ensures s[i] != s[j] {
        if i < |a| { assert s[i] in a; }
        if j >= |a| { assert s[j] in b; }
      }
    }
  }

  lemma {:induction false} DistinctPermutes<T(!new)>(a: seq<T>, b: seq<T>)
    requires multiset(a) == multiset(b) && Distinct(a)
    ensures Distinct(b) && forall k :: k in a <==> k in b
  {
    forall k ensures k in a <==> k in b {
      assert k in a <==> k in multiset(a);
      assert k in b <==> k in multiset(b);
    }
    forall k ensures multiset(a)[k] <= 1 { OnceEach(a, k); }
    forall i, j | 0 <= i < j < |b| ensures b[i] != b[j] {
      if b[i] == b[j] { CountedTwice(b, i, j); }
    }
  }

  lemma {:induction false} OnceEach<T>(a: seq<T>, k: T)
    requires Distinct(a)
    ensures multiset(a)[k] <= 1
  {
    if a != [] {
      assert a == [a[0]] + a[1..];
      OnceEach(a[1..], k);
    }
  }
}
