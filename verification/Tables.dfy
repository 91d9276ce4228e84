/**
  Database tables as sequences of keyed records, in primary-key order, and the
  only query shape the synchronisation code uses: the rows whose key is in a
  given set, in table order.
*/
module Tables {

  /** A row, its key, and the length of its canonical text (`octet_length`). */
  datatype Rec<+K, +R> = Rec(key: K, row: R, bytes: nat)

  const ROW_OVERHEAD_BYTES: nat := 256

  function Select<K(==, !new), R(!new)>(t: seq<Rec<K, R>>, ids: set<K>): (r: seq<Rec<K, R>>)
    ensures forall x :: x in r <==> x in t && x.key in ids
  {
    if t == [] then []
    else if t[0].key in ids then [t[0]] + Select(t[1..], ids)
    else Select(t[1..], ids)
  }

  function Keys<K, R(==)>(t: seq<Rec<K, R>>): set<K> {
    set x | x in t :: x.key
  }

  function TotalBytes<K, R>(t: seq<Rec<K, R>>): nat {
    if t == [] then 0 else t[0].bytes + TotalBytes(t[1..])
  }

  /** What `_reserve_query_rows` debits for a result set. */
  function Cost<K, R>(t: seq<Rec<K, R>>): nat {
    TotalBytes(t) + |t| * ROW_OVERHEAD_BYTES
  }

  predicate UniqueKeys<K(==), R(==)>(t: seq<Rec<K, R>>) {
    t == [] || (t[0].key !in Keys(t[1..]) && UniqueKeys(t[1..]))
  }

  /** Loading more than is looked at does not change what is looked at. */
  lemma {:induction false} SelectSelect<K(!new), R(!new)>(t: seq<Rec<K, R>>, loaded: set<K>, wanted: set<K>)
    requires wanted <= loaded
    ensures Select(Select(t, loaded), wanted) == Select(t, wanted)
  {
    if t != [] {
      SelectSelect(t[1..], loaded, wanted);
      if t[0].key in loaded {
        assert ([t[0]] + Select(t[1..], loaded))[1..] == Select(t[1..], loaded);
      }
    }
  }

  lemma {:induction false} SelectNone<K(!new), R(!new)>(t: seq<Rec<K, R>>, ids: set<K>)
    requires forall x :: x in t ==> x.key !in ids
    ensures Select(t, ids) == []
  {
    if t != [] {
      assert t[0] in t;
      SelectNone(t[1..], ids);
    }
  }

  lemma {:induction false} SelectAll<K(!new), R(!new)>(t: seq<Rec<K, R>>, ids: set<K>)
    requires forall x :: x in t ==> x.key in ids
    ensures Select(t, ids) == t
  {
    if t != [] {
      assert t[0] in t;
      SelectAll(t[1..], ids);
    }
  }

  /** If every `a` row precedes every `b` row, a combined fetch is the two fetches in order. */
  lemma {:induction false} SelectSplit<K(!new), R(!new)>(t: seq<Rec<K, R>>, a: set<K>, b: set<K>)
    requires a !! b
    requires forall i, j :: 0 <= i < j < |t| && t[i].key in b ==> t[j].key !in a
    ensures Select(t, a + b) == Select(t, a) + Select(t, b)
  {
    if t != [] {
      var rest := t[1..];
      forall i, j | 0 <= i < j < |rest| && rest[i].key in b ensures rest[j].key !in a {
        assert rest[i] == t[i + 1] && rest[j] == t[j + 1];
      }
      SelectSplit(rest, a, b);
      if t[0].key in b {
        forall x | x in rest ensures x.key !in a {
          var j :| 0 <= j < |rest| && rest[j] == x;
          assert t[0].key in b && t[j + 1] == x;
        }
        SelectNone(rest, a);
      }
    }
  }

  lemma SelectKeys<K(!new), R(!new)>(t: seq<Rec<K, R>>, ids: set<K>)
    ensures Keys(Select(t, ids)) == Keys(t) * ids
  {
  }

  lemma {:induction false} SelectUnique<K(!new), R(!new)>(t: seq<Rec<K, R>>, ids: set<K>)
    requires UniqueKeys(t)
    ensures UniqueKeys(Select(t, ids))
  {
    if t != [] {
      var rest := Select(t[1..], ids);
      SelectUnique(t[1..], ids);
      SelectKeys(t[1..], ids);
      assert ([t[0]] + rest)[1..] == rest;
    }
  }

  lemma {:induction false} UniqueLookup<K(!new), R(!new)>(t: seq<Rec<K, R>>, x: Rec<K, R>, y: Rec<K, R>)
    requires UniqueKeys(t) && x in t && y in t && x.key == y.key
    ensures x == y
  {
    if x == t[0] || y == t[0] {
      assert x in [t[0]] + t[1..] && y in [t[0]] + t[1..];
    } else {
      assert t == [t[0]] + t[1..];
      UniqueLookup(t[1..], x, y);
    }
  }
}
