/** Ordered enumerations of finite sets, and cutting them into batches. */
module Sequences {

  function Flatten<T>(s: seq<seq<T>>): seq<T> {
    if s == [] then [] else s[0] + Flatten(s[1..])
  }

  lemma {:induction false} FlattenAppend<T>(a: seq<seq<T>>, b: seq<seq<T>>)
    ensures Flatten(a + b) == Flatten(a) + Flatten(b)
  {
    if a == [] {
      assert a + b == b;
    } else {
      assert (a + b)[1..] == a[1..] + b;
      FlattenAppend(a[1..], b);
    }
  }

  lemma AppendAssociative<T>(a: seq<T>, b: seq<T>, c: seq<T>)
    ensures (a + b) + c == a + (b + c)
  {
  }

  lemma AppendEmpty<T>(a: seq<T>)
    ensures a + [] == a && [] + a == a
  {
  }

  /** `fetchmany(n)` until nothing is left. */
  function Chunks<T>(s: seq<T>, n: nat): (r: seq<seq<T>>)
    requires n > 0
    ensures Flatten(r) == s
    ensures forall c :: c in r ==> 0 < |c| <= n
    decreases |s|
  {
    if s == [] then []
    else if |s| <= n then [s]
    else
      assert s[..n] + s[n..] == s;
      [s[..n]] + Chunks(s[n..], n)
  }

  /** Every batch but the last is full. */
  lemma {:induction false} ChunksAreFull<T>(s: seq<T>, n: nat)
    requires n > 0
    ensures forall i :: 0 <= i < |Chunks(s, n)| - 1 ==> |Chunks(s, n)[i]| == n
    decreases |s|
  {
    if |s| > n {
      ChunksAreFull(s[n..], n);
    }
  }

  ghost predicate StrictTotalOrder<T(!new)>(before: (T, T) -> bool) {
    && (forall x :: !before(x, x))
    && (forall x, y :: x == y || before(x, y) || before(y, x))
    && (forall x, y, z :: before(x, y) && before(y, z) ==> before(x, z))
  }

  predicate First<T>(before: (T, T) -> bool, s: set<T>, m: T) {
    m in s && forall x :: x in s && x != m ==> before(m, x)
  }

  ghost predicate Ordered<T>(before: (T, T) -> bool, s: seq<T>) {
    forall i, j :: 0 <= i < j < |s| ==> before(s[i], s[j])
  }

  lemma {:induction false} FirstExists<T(!new)>(before: (T, T) -> bool, s: set<T>)
    requires StrictTotalOrder(before) && s != {}
    ensures exists m :: First(before, s, m)
  {
    var a :| a in s;
    if s == {a} {
      assert First(before, s, a);
    } else {
      var rest := s - {a};
      assert s == {a} + rest;
      FirstExists(before, rest);
      var m :| First(before, rest, m);
      if before(a, m) {
        forall x | x in s && x != a ensures before(a, x) {
          assert x in rest;
          assert x == m || before(m, x);
        }
        assert First(before, s, a);
      } else {
        assert First(before, s, m);
      }
    }
  }

  /** `ORDER BY`: the elements of `s`, each once, in order. */
  function Sorted<T(!new)>(before: (T, T) -> bool, s: set<T>): (r: seq<T>)
    requires StrictTotalOrder(before)
    ensures Ordered(before, r)
    ensures forall x :: x in r <==> x in s
    ensures |r| == |s|
    decreases |s|
  {
    if s == {} then []
    else
      FirstExists(before, s);
      var m :| First(before, s, m);
      var rest := Sorted(before, s - {m});
      SortedCons(before, s, m, rest);
      [m] + rest
  }

  lemma SortedCons<T(!new)>(before: (T, T) -> bool, s: set<T>, m: T, rest: seq<T>)
    requires First(before, s, m)
    requires Ordered(before, rest)
    requires forall x :: x in rest <==> x in s - {m}
    ensures Ordered(before, [m] + rest)
    ensures forall x :: x in [m] + rest <==> x in s
  {
    var r := [m] + rest;
    forall i, j | 0 <= i < j < |r| ensures before(r[i], r[j]) {
      assert r[j] == rest[j - 1];
      assert rest[j - 1] in rest;
    }
  }
}
