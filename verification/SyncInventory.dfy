/**
  The inventory of every match: keyset pagination, graph hashes computed in
  whatever batches fit, and the advertised catalog (telemetry/sync_inventory.py).
*/
module SyncInventory {
  import opened Artworks
  import opened Results
  import opened Tables
  import opened Sequences
  import opened SyncErrors
  import opened SyncBudget
  import opened SyncGraph
  import opened SyncCatalogs
  import opened SyncData

  const INVENTORY_MATCHES_PER_PAGE: nat := 1000

  // ------------------------------------------------------------ Keyset pagination

  function KeysInOrder(t: seq<Rec<Pair, Match>>): (r: seq<Pair>)
    ensures |r| == |t| && forall i :: 0 <= i < |t| ==> r[i] == t[i].key
  {
    seq(|t|, i requires 0 <= i < |t| => t[i].key)
  }

  predicate After(cursor: Option<Pair>, key: Pair) {
    cursor.None? || PairBefore(cursor.value, key)
  }

  function RowsAfter(t: seq<Rec<Pair, Match>>, cursor: Option<Pair>): (r: seq<Rec<Pair, Match>>)
    ensures forall x :: x in r <==> x in t && After(cursor, x.key)
  {
    if t == [] then []
    else if After(cursor, t[0].key) then [t[0]] + RowsAfter(t[1..], cursor)
    else RowsAfter(t[1..], cursor)
  }

  /** `WHERE key > cursor ORDER BY key LIMIT limit`. */
  function FetchInventoryRows(s: Snapshot, cursor: Option<Pair>, limit: nat): seq<Pair> {
    var rows := RowsAfter(s.matches, cursor);
    KeysInOrder(if |rows| <= limit then rows else rows[..limit])
  }

  lemma {:induction false} RowsAfterAll(t: seq<Rec<Pair, Match>>, cursor: Option<Pair>)
    requires forall x :: x in t ==> After(cursor, x.key)
    ensures RowsAfter(t, cursor) == t
  {
    if t != [] {
      assert t[0] in t;
      RowsAfterAll(t[1..], cursor);
    }
  }

  lemma {:induction false} RowsAfterNone(t: seq<Rec<Pair, Match>>, cursor: Option<Pair>)
    requires forall x :: x in t ==> !After(cursor, x.key)
    ensures RowsAfter(t, cursor) == []
  {
    if t != [] {
      assert t[0] in t;
      RowsAfterNone(t[1..], cursor);
    }
  }

  lemma {:induction false} RowsAfterAppend(a: seq<Rec<Pair, Match>>, b: seq<Rec<Pair, Match>>, cursor: Option<Pair>)
    ensures RowsAfter(a + b, cursor) == RowsAfter(a, cursor) + RowsAfter(b, cursor)
  {
    if a == [] {
      assert a + b == b;
    } else {
      assert (a + b)[1..] == a[1..] + b;
      RowsAfterAppend(a[1..], b, cursor);
    }
  }

  /** The cursor left by the first `n` rows resumes exactly at row `n`. */
  lemma CursorResumes(t: seq<Rec<Pair, Match>>, n: nat)
    requires InKeyOrder(t) && 0 < n <= |t|
    ensures RowsAfter(t, Some(t[n - 1].key)) == t[n..]
  {
    var cursor := Some(t[n - 1].key);
    assert t == t[..n] + t[n..];
    RowsAfterAppend(t[..n], t[n..], cursor);
    forall x | x in t[..n] ensures !After(cursor, x.key) {
      var i :| 0 <= i < n && t[i] == x;
      assert i < n - 1 ==> PairBefore(t[i].key, t[n - 1].key);
    }
    RowsAfterNone(t[..n], cursor);
    forall x | x in t[n..] ensures After(cursor, x.key) {
      var i :| n <= i < |t| && t[i] == x;
    }
    RowsAfterAll(t[n..], cursor);
  }

  // ------------------------------------------------------- Hashes of any batching

  function LostEnds(pairs: set<Pair>): set<Id> {
    set p | p in pairs :: p.lost
  }

  function AuctionEnds(pairs: set<Pair>): set<Id> {
    set p | p in pairs :: p.auction
  }

  ghost predicate Listed(s: Snapshot, pairs: set<Pair>) {
    pairs <= Keys(s.matches) && LostEnds(pairs) <= Keys(s.graph.lost) && AuctionEnds(pairs) <= Keys(s.graph.auction)
  }

  /** The endpoints of every match exist. */
  ghost predicate ForeignKeys(s: Snapshot) {
    Listed(s, Keys(s.matches))
  }

  /** `h` holds the snapshot's own hashes of exactly these pairs and their endpoints. */
  ghost predicate Describes(s: Snapshot, pairs: set<Pair>, h: Hashes) {
    && TrueHashes(s, h)
    && h.matches.Keys == pairs && h.lost.Keys == LostEnds(pairs) && h.auction.Keys == AuctionEnds(pairs)
  }

  /** Dictionary updates: the later value stays. */
  function Merge(a: Hashes, b: Hashes): Hashes {
    Hashes(a.matches + b.matches, a.lost + b.lost, a.auction + b.auction)
  }

  /** The hashes of `pairs` computed in one batch. */
  function BatchHashes(s: Snapshot, pairs: set<Pair>): Hashes {
    BuildContent(s, Select(s.matches, pairs), {}, {}).hashes
  }

  lemma BatchKeys(s: Snapshot, pairs: set<Pair>, h: Hashes)
    requires h == BatchHashes(s, pairs)
    ensures TrueHashes(s, h)
    ensures h.matches.Keys == Keys(s.matches) * pairs
    ensures h.lost.Keys <= LostEnds(pairs) && h.auction.Keys <= AuctionEnds(pairs)
    ensures Listed(s, pairs) ==> Describes(s, pairs, h)
  {
    hide BuildContent, IsLostHash, IsAuctionHash, IsMatchHash;
    var rows := Select(s.matches, pairs);
    BatchIndependence(s, rows, {}, {});
    SelectKeys(s.matches, pairs);
    EndsOfRows(rows);
  }

  lemma EndsOfRows(rows: seq<Rec<Pair, Match>>)
    ensures LostIds(rows) + {} == LostEnds(Keys(rows)) && AuctionIds(rows) + {} == AuctionEnds(Keys(rows))
  {
  }

  /** A snapshot has one description of a set of pairs, however it was computed. */
  lemma DescribedOnce(s: Snapshot, pairs: set<Pair>, a: Hashes, b: Hashes)
    requires ValidSnapshot(s) && Describes(s, pairs, a) && Describes(s, pairs, b)
    ensures a == b
  {
    hide IsLostHash, IsAuctionHash, IsMatchHash;
    TrueHashesAgree(s, a, b);
  }

  lemma DescribedAreListed(s: Snapshot, pairs: set<Pair>, h: Hashes)
    requires Describes(s, pairs, h)
    ensures Listed(s, pairs) && EndpointsListed(h)
  {
    AdvertisedExist(s, h);
  }

  lemma MergeIsTrue(s: Snapshot, a: Hashes, b: Hashes)
    requires TrueHashes(s, a) && TrueHashes(s, b)
    ensures TrueHashes(s, Merge(a, b))
  {
  }

  lemma MergeDescribes(s: Snapshot, a: set<Pair>, b: set<Pair>, x: Hashes, y: Hashes)
    requires Describes(s, a, x) && Describes(s, b, y)
    ensures Describes(s, a + b, Merge(x, y))
  {
    MergeIsTrue(s, x, y);
    EndsUnion(a, b);
    MergeKeys(x, y);
  }

  lemma EndsUnion(a: set<Pair>, b: set<Pair>)
    ensures LostEnds(a + b) == LostEnds(a) + LostEnds(b) && AuctionEnds(a + b) == AuctionEnds(a) + AuctionEnds(b)
  {
  }

  lemma MergeKeys(a: Hashes, b: Hashes)
    ensures var m := Merge(a, b);
            m.matches.Keys == a.matches.Keys + b.matches.Keys
            && m.lost.Keys == a.lost.Keys + b.lost.Keys && m.auction.Keys == a.auction.Keys + b.auction.Keys
  {
  }

  /** Hashing a batch in two parts and merging gives what hashing it at once gives. */
  lemma SplitHashesAgree(s: Snapshot, a: set<Pair>, b: set<Pair>)
    requires ValidSnapshot(s) && Listed(s, a) && Listed(s, b)
    ensures BatchHashes(s, a + b) == Merge(BatchHashes(s, a), BatchHashes(s, b))
  {
    hide BatchHashes, TrueHashes;
    var x, y, z := BatchHashes(s, a), BatchHashes(s, b), BatchHashes(s, a + b);
    EndsUnion(a, b);
    BatchKeys(s, a, x);
    BatchKeys(s, b, y);
    BatchKeys(s, a + b, z);
    SplitDescriptionsAgree(s, a, b, x, y, z);
  }

  lemma SplitDescriptionsAgree(s: Snapshot, a: set<Pair>, b: set<Pair>, x: Hashes, y: Hashes, whole: Hashes)
    requires ValidSnapshot(s) && Describes(s, a, x) && Describes(s, b, y) && Describes(s, a + b, whole)
    ensures whole == Merge(x, y)
  {
    MergeDescribes(s, a, b, x, y);
    DescribedOnce(s, a + b, whole, Merge(x, y));
  }

  lemma NothingDescribed(s: Snapshot)
    ensures Describes(s, {}, NO_HASHES)
  {
  }

  lemma MergeAssociative(a: Hashes, b: Hashes, c: Hashes)
    ensures Merge(Merge(a, b), c) == Merge(a, Merge(b, c))
  {
    MapMergeAssociative(a.matches, b.matches, c.matches);
    MapMergeAssociative(a.lost, b.lost, c.lost);
    MapMergeAssociative(a.auction, b.auction, c.auction);
  }

  lemma MapMergeAssociative<K, V>(a: map<K, V>, b: map<K, V>, c: map<K, V>)
    ensures (a + b) + c == a + (b + c)
  {
  }

  // ------------------------------------------------------------- What a page holds

  predicate Hashed(h: Hashes, p: Pair) {
    p in h.matches && p.lost in h.lost && p.auction in h.auction
  }

  function AddPair(inventory: Hashes, h: Hashes, p: Pair): Hashes
    requires Hashed(h, p)
  {
    Hashes(inventory.matches[p := h.matches[p]],
           inventory.lost[p.lost := h.lost[p.lost]],
           inventory.auction[p.auction := h.auction[p.auction]])
  }

  lemma AddPairDescribes(s: Snapshot, done: set<Pair>, listing: Hashes, h: Hashes, p: Pair)
    requires Describes(s, done, listing) && TrueHashes(s, h) && Hashed(h, p)
    ensures Describes(s, done + {p}, AddPair(listing, h, p))
  {
    hide IsLostHash, IsAuctionHash, IsMatchHash;
    assert LostEnds(done + {p}) == LostEnds(done) + {p.lost};
    assert AuctionEnds(done + {p}) == AuctionEnds(done) + {p.auction};
  }

  lemma MergeAddPair(a: Hashes, b: Hashes, h: Hashes, p: Pair)
    requires Hashed(h, p)
    ensures AddPair(Merge(a, b), h, p) == Merge(a, AddPair(b, h, p))
  {
    MergeUpdate(a.matches, b.matches, p, h.matches[p]);
    MergeUpdate(a.lost, b.lost, p.lost, h.lost[p.lost]);
    MergeUpdate(a.auction, b.auction, p.auction, h.auction[p.auction]);
  }

  lemma MergeUpdate<K, V>(a: map<K, V>, b: map<K, V>, k: K, v: V)
    ensures (a + b)[k := v] == a + b[k := v]
  {
  }

  // -------------------------------------------------------------------- Spooling

  /** One inventory page: the pairs it enumerates, its hashes, and its length as canonical JSON. */
  datatype InventoryPage = InventoryPage(pairs: seq<Pair>, hashes: Hashes, length: nat)

  function PairsOf(pages: seq<InventoryPage>): seq<Pair> {
    if pages == [] then [] else PairsOf(pages[..|pages| - 1]) + pages[|pages| - 1].pairs
  }

  function Lengths(pages: seq<InventoryPage>): seq<nat> {
    seq(|pages|, i requires 0 <= i < |pages| => pages[i].length)
  }

  ghost predicate TruePage(s: Snapshot, p: InventoryPage) {
    |p.pairs| <= INVENTORY_MATCHES_PER_PAGE && Describes(s, SetOf(p.pairs), p.hashes)
  }

  /** What loading a batch debits: the match rows, then their closure. */
  function InventoryEstimate(s: Snapshot, pairs: set<Pair>): nat {
    var rows := Select(s.matches, pairs);
    FIXED_OVERHEAD_BYTES + Cost(rows) + ClosureCost(LoadGraph(s, rows, {}, {}))
  }

  /** No row of a listed batch is loaded that its estimate does not cover. */
  lemma InventoryEstimateCovers(s: Snapshot, pairs: set<Pair>)
    ensures var rows, bytes := Select(s.matches, pairs), InventoryEstimate(s, pairs) - FIXED_OVERHEAD_BYTES;
            Covered(rows, bytes) && GraphCovered(LoadGraph(s, rows, {}, {}), bytes)
  {
    hide LoadGraph, GraphCovered, ClosureCost, Covered, Cost;
    var rows, bytes := Select(s.matches, pairs), InventoryEstimate(s, pairs) - FIXED_OVERHEAD_BYTES;
    CostCoversAll(rows, bytes);
    ClosureCostCovers(LoadGraph(s, rows, {}, {}), bytes);
  }

  /**
    One of `pairs`, on its own, needs more than the room found by the last probe,
    made after the first `start` ones and in the very state `w`.
  */
  ghost predicate Unlistable(s: Snapshot, start: nat, w: Workspace, free: nat -> int, pairs: seq<Pair>) {
    && start + 2 <= w.probes && RoomLeft(w, free) > FIXED_OVERHEAD_BYTES
    && exists p :: p in pairs && InventoryEstimate(s, {p}) > RoomLeft(w, free)
  }

  lemma UnlistableAmongMore(
    s: Snapshot, start: nat, later: nat, w: Workspace, free: nat -> int, some: seq<Pair>, all: seq<Pair>)
    requires Unlistable(s, later, w, free, some) && start <= later && forall p :: p in some ==> p in all
    ensures Unlistable(s, start, w, free, all)
  {
  }

  lemma LonePairUnlistable(s: Snapshot, w: Workspace, free: nat -> int, pairs: seq<Pair>)
    requires |pairs| == 1
    requires var limit := NextPageLimit(w, free, HARD_LIMIT).1;
             limit.Ok? && InventoryEstimate(s, SetOf(pairs)) > limit.value
    ensures Unlistable(s, w.probes, NextPageLimit(w, free, HARD_LIMIT).0, free, pairs)
  {
    hide InventoryEstimate;
    assert SetOf(pairs) == {pairs[0]};
    LoneItemLimit(w, free);
  }

  lemma ListedSubset(s: Snapshot, some: set<Pair>, all: set<Pair>)
    requires Listed(s, all) && some <= all
    ensures Listed(s, some)
  {
  }

  /** The first `n` matches are on `pages`, each once and in order, and advertised. */
  ghost predicate Enumerated(s: Snapshot, n: nat, pages: seq<InventoryPage>, c: Catalog) {
    && n <= |s.matches|
    && PairsOf(pages) == KeysInOrder(s.matches)[..n]
    && (forall p :: p in pages ==> TruePage(s, p) && Recorded(c, p.hashes))
    && c == EMPTY_CATALOG.(advertised := c.advertised)
    && Describes(s, SetOf(PairsOf(pages)), c.advertised)
  }

  /** Every page but the last holds exactly 1000 pairs; while matches remain, so does the last. */
  ghost predicate FullPages(pages: seq<InventoryPage>, more: bool) {
    forall i :: 0 <= i < |pages| && (more || i < |pages| - 1) ==> |pages[i].pairs| == 1000
  }

  lemma AllEnumerated(s: Snapshot, pages: seq<InventoryPage>, c: Catalog)
    requires Enumerated(s, |s.matches|, pages, c)
    ensures PairsOf(pages) == KeysInOrder(s.matches) && Describes(s, Keys(s.matches), c.advertised)
  {
  }

  lemma NothingEnumerated(s: Snapshot)
    ensures Enumerated(s, 0, [], EMPTY_CATALOG)
  {
  }

  lemma TruePageDescribes(s: Snapshot, page: InventoryPage)
    requires TruePage(s, page)
    ensures Describes(s, SetOf(page.pairs), page.hashes)
  {
  }

  lemma AdvertiseIsMerge(known: Hashes, page: Hashes)
    ensures Advertise(known, page) == Merge(page, known)
  {
  }

  lemma RecordedStays(c: Catalog, page: Hashes, other: Hashes)
    ensures Recorded(c, other) || other == page ==> Recorded(RecordInventory(c, page), other)
  {
  }

  lemma OneMorePage(s: Snapshot, n: nat, m: nat, pages: seq<InventoryPage>, c: Catalog, page: InventoryPage)
    requires Enumerated(s, n, pages, c) && TruePage(s, page) && n <= m <= |s.matches|
    requires page.pairs == KeysInOrder(s.matches)[n..m]
    ensures Enumerated(s, m, pages + [page], RecordInventory(c, page.hashes))
  {
    hide TrueHashes, TruePage, Advertise, Recorded, Describes;
    var keys, d := KeysInOrder(s.matches), RecordInventory(c, page.hashes);
    assert (pages + [page])[..|pages|] == pages;
    assert keys[..m] == keys[..n] + keys[n..m];
    assert SetOf(PairsOf(pages + [page])) == SetOf(page.pairs) + SetOf(PairsOf(pages));
    assert Describes(s, SetOf(page.pairs), page.hashes) by {
      TruePageDescribes(s, page);
    }
    MergeDescribes(s, SetOf(page.pairs), SetOf(PairsOf(pages)), page.hashes, c.advertised);
    AdvertiseIsMerge(c.advertised, page.hashes);
    forall p | p in pages + [page] ensures TruePage(s, p) && Recorded(d, p.hashes) {
      RecordedStays(c, page.hashes, p.hashes);
    }
  }

  lemma EverythingAfterNone(t: seq<Rec<Pair, Match>>)
    ensures RowsAfter(t, None) == t
  {
  }

  /** The cursor left by the first `n` rows fetches the next rows, and none twice. */
  lemma NextRows(s: Snapshot, n: nat, cursor: Option<Pair>, limit: nat)
    requires InKeyOrder(s.matches) && n <= |s.matches|
    requires cursor == if n == 0 then None else Some(s.matches[n - 1].key)
    ensures FetchInventoryRows(s, cursor, limit) == KeysInOrder(s.matches)[n..Min(n + limit, |s.matches|)]
  {
    hide InKeyOrder, After, PairBefore, RowsAfter;
    if n == 0 {
      EverythingAfterNone(s.matches);
    } else {
      CursorResumes(s.matches, n);
    }
  }

  lemma KeysOfAll(t: seq<Rec<Pair, Match>>)
    ensures SetOf(KeysInOrder(t)) == Keys(t)
  {
  }

  class InventorySpooler {
    const snapshot: Snapshot
    const inventoryLength: Hashes -> nat
    const catalog: SyncCatalog
    const budget: WorkspaceBudget
    var inventory: Hashes
    var pages: seq<InventoryPage>

    constructor (snapshot: Snapshot, inventoryLength: Hashes -> nat, catalog: SyncCatalog, budget: WorkspaceBudget)
      ensures this.snapshot == snapshot && this.inventoryLength == inventoryLength
      ensures this.catalog == catalog && this.budget == budget
      ensures inventory == NO_HASHES && pages == []
    {
      this.snapshot, this.inventoryLength, this.catalog, this.budget := snapshot, inventoryLength, catalog, budget;
      inventory, pages := NO_HASHES, [];
    }

    /** The rows of one batch and their closure, within `limit` bytes; `None` is the materialisation limit. */
    method LoadBatch(pairs: seq<Pair>, limit: nat) returns (content: Option<Content>)
      requires limit > FIXED_OVERHEAD_BYTES
      ensures content.Some? <==> InventoryEstimate(snapshot, SetOf(pairs)) <= limit
      ensures content.Some? ==> content.value.hashes == BatchHashes(snapshot, SetOf(pairs))
    {
      var materialization := new MaterializationBudget(limit);
      var rows :- FetchTable(snapshot.matches, SetOf(pairs), materialization);
      content := BuildDataContent(snapshot, rows, {}, {}, materialization);
    }

    /** Copies the hashes of `pairs`, in order; a missing one is a `KeyError`. */
    method CopyHashes(pairs: seq<Pair>, h: Hashes) returns (error: Option<SyncError>, ghost added: Hashes)
      requires h == BatchHashes(snapshot, SetOf(pairs))
      modifies this`inventory
      ensures error.None? ==> Describes(snapshot, SetOf(pairs), added) && inventory == Merge(old(inventory), added)
      ensures error.Some? ==> error.value == MissingGraphHash && !Listed(snapshot, SetOf(pairs))
    {
      hide BatchHashes, TrueHashes;
      added := NO_HASHES;
      ghost var was := inventory;
      BatchKeys(snapshot, SetOf(pairs), h);
      NothingDescribed(snapshot);
      assert SetOf(pairs[..0]) == {};
      for i := 0 to |pairs|
        invariant Describes(snapshot, SetOf(pairs[..i]), added)
        invariant inventory == Merge(was, added)
      {
        var p := pairs[i];
        assert SetOf(pairs[..i + 1]) == SetOf(pairs[..i]) + {p};
        if p !in h.matches || p.lost !in h.lost || p.auction !in h.auction {
          assert p in SetOf(pairs);
          return Some(MissingGraphHash), added;
        }
        AddPairDescribes(snapshot, SetOf(pairs[..i]), added, h, p);
        MergeAddPair(was, added, h, p);
        added := AddPair(added, h, p);
        inventory := AddPair(inventory, h, p);
      }
      assert pairs[..|pairs|] == pairs;
      return None, added;
    }

    /** `_add_inventory_hashes`: a batch that does not fit is hashed in halves. */
    method AddInventoryHashes(pairs: seq<Pair>) returns (error: Option<SyncError>, ghost added: Hashes)
      modifies this`inventory, budget.disk`probes
      ensures old(budget.disk.probes) <= budget.disk.probes
      ensures error.None? ==> Describes(snapshot, SetOf(pairs), added) && inventory == Merge(old(inventory), added)
      ensures error.Some? ==> error.value in {WorkspaceLimit, UnsendableClosure, MissingGraphHash}
      ensures error == Some(MissingGraphHash) ==> !Listed(snapshot, SetOf(pairs))
      ensures error == Some(UnsendableClosure) ==> Unlistable(snapshot, old(budget.disk.probes), budget.View(), budget.disk.freeAt, pairs)
      decreases |pairs|, 1
    {
      hide TrueHashes, BatchHashes, InventoryEstimate, RoomLeft, NextPageLimit;
      added := NO_HASHES;
      if pairs == [] {
        NothingDescribed(snapshot);
        assert SetOf(pairs) == {};
        return None, added;
      }
      var limit := budget.NextPageMaterializationLimit(RequestedLimit(|pairs|));
      if limit.Err? {
        return Some(limit.error), added;
      }
      var content := LoadBatch(pairs, limit.value);
      if content.Some? {
        error, added := CopyHashes(pairs, content.value.hashes);
        return;
      }
      if |pairs| == 1 {
        LonePairUnlistable(snapshot, old(budget.View()), budget.disk.freeAt, pairs);
        return Some(UnsendableClosure), added;
      }
      error, added := AddInventoryHalves(pairs);
    }

    method AddInventoryHalves(pairs: seq<Pair>) returns (error: Option<SyncError>, ghost added: Hashes)
      requires |pairs| > 1
      modifies this`inventory, budget.disk`probes
      ensures old(budget.disk.probes) <= budget.disk.probes
      ensures error.None? ==> Describes(snapshot, SetOf(pairs), added) && inventory == Merge(old(inventory), added)
      ensures error.Some? ==> error.value in {WorkspaceLimit, UnsendableClosure, MissingGraphHash}
      ensures error == Some(MissingGraphHash) ==> !Listed(snapshot, SetOf(pairs))
      ensures error == Some(UnsendableClosure) ==> Unlistable(snapshot, old(budget.disk.probes), budget.View(), budget.disk.freeAt, pairs)
      decreases |pairs|, 0
    {
      hide TrueHashes, InventoryEstimate, RoomLeft, Unlistable;
      var middle := |pairs| / 2;
      ghost var left, right := SetOf(pairs[..middle]), SetOf(pairs[middle..]);
      assert SetOf(pairs) == left + right by {
        assert pairs == pairs[..middle] + pairs[middle..];
      }
      ghost var was := inventory;
      ghost var first, second;
      ghost var start, free := budget.disk.probes, budget.disk.freeAt;
      error, first := AddInventoryHashes(pairs[..middle]);
      added := first;
      if error.Some? {
        if error == Some(UnsendableClosure) {
          UnlistableAmongMore(snapshot, start, start, budget.View(), free, pairs[..middle], pairs);
        }
        return;
      }
      ghost var later := budget.disk.probes;
      error, second := AddInventoryHashes(pairs[middle..]);
      if error.Some? {
        if error == Some(UnsendableClosure) {
          UnlistableAmongMore(snapshot, start, later, budget.View(), free, pairs[middle..], pairs);
        }
        return;
      }
      MergeDescribes(snapshot, left, right, first, second);
      MergeAssociative(was, first, second);
      added := Merge(first, second);
    }

    /** One page of at most 1000 pairs, hashed 100 at a time, recorded and written. */
    method SpoolPage(pairs: seq<Pair>) returns (error: Option<SyncError>)
      requires catalog.budget == budget && |pairs| <= INVENTORY_MATCHES_PER_PAGE
      modifies this, catalog, budget`usedBytes, budget`trackedCatalogBytes, budget`pageCount
      modifies budget.disk`probes, budget.disk`commits, budget.disk`catalogBytes, budget.disk`inventory, budget.disk`data
      ensures old(budget.disk.probes) <= budget.disk.probes
      ensures old(budget.Accounted()) ==> budget.Accounted()
      ensures budget.disk.data == old(budget.disk.data)
      ensures error.None? ==>
                && |pages| == |old(pages)| + 1 && pages[..|old(pages)|] == old(pages)
                && (var page := pages[|old(pages)|];
                    && page.pairs == pairs && TruePage(snapshot, page)
                    && page.length == inventoryLength(page.hashes)
                    && catalog.View() == RecordInventory(old(catalog.View()), page.hashes)
                    && budget.disk.inventory == old(budget.disk.inventory) + [page.length])
                && budget.pageCount == old(budget.pageCount) + 1 < budget.maxPages
      ensures error.Some? ==> error.value in {WorkspaceLimit, UnsendableClosure, MissingGraphHash}
      ensures error == Some(MissingGraphHash) ==> !Listed(snapshot, SetOf(pairs))
      ensures error == Some(UnsendableClosure) ==> Unlistable(snapshot, old(budget.disk.probes), budget.View(), budget.disk.freeAt, pairs)
    {
      hide TrueHashes, Unlistable;
      error := budget.EnsureCapacity(1);
      if error.Some? {
        return;
      }
      inventory := NO_HASHES;
      ghost var probes := budget.disk.probes;
      error := HashPage(pairs);
      if error.Some? {
        if error == Some(UnsendableClosure) {
          UnlistableAmongMore(
            snapshot, old(budget.disk.probes), probes, budget.View(), budget.disk.freeAt, pairs, pairs);
        }
        return;
      }
      catalog.Record(inventory);
      var length := inventoryLength(inventory);
      error := budget.WriteRawPage(InventoryDirectory, length);
      if error.None? {
        pages := pages + [InventoryPage(pairs, inventory, length)];
      }
    }

    method HashPage(pairs: seq<Pair>) returns (error: Option<SyncError>)
      requires inventory == NO_HASHES
      modifies this`inventory, budget.disk`probes
      ensures old(budget.disk.probes) <= budget.disk.probes
      ensures error.None? ==> Describes(snapshot, SetOf(pairs), inventory)
      ensures error.Some? ==> error.value in {WorkspaceLimit, UnsendableClosure, MissingGraphHash}
      ensures error == Some(MissingGraphHash) ==> !Listed(snapshot, SetOf(pairs))
      ensures error == Some(UnsendableClosure) ==> Unlistable(snapshot, old(budget.disk.probes), budget.View(), budget.disk.freeAt, pairs)
    {
      hide TrueHashes, Unlistable;
      NothingDescribed(snapshot);
      assert SetOf(pairs[..0]) == {};
      var start := 0;
      while start < |pairs|
        invariant start <= |pairs|
        invariant Describes(snapshot, SetOf(pairs[..start]), inventory)
        invariant old(budget.disk.probes) <= budget.disk.probes
      {
        var end := if start + DATA_MATCHES_PER_PAGE < |pairs| then start + DATA_MATCHES_PER_PAGE else |pairs|;
        ghost var was, added := inventory, NO_HASHES;
        assert pairs[..end] == pairs[..start] + pairs[start..end];
        assert SetOf(pairs[..end]) == SetOf(pairs[..start]) + SetOf(pairs[start..end]);
        assert SetOf(pairs[start..end]) <= SetOf(pairs);
        ghost var probes := budget.disk.probes;
        error, added := AddInventoryHashes(pairs[start..end]);
        if error.Some? {
          if error == Some(UnsendableClosure) {
            UnlistableAmongMore(
              snapshot, old(budget.disk.probes), probes, budget.View(), budget.disk.freeAt, pairs[start..end], pairs);
          }
          return;
        }
        MergeDescribes(snapshot, SetOf(pairs[..start]), SetOf(pairs[start..end]), was, added);
        start := end;
      }
      assert pairs[..|pairs|] == pairs;
      return None;
    }

    method NextPage(pairs: seq<Pair>, ghost n: nat, ghost m: nat) returns (error: Option<SyncError>)
      requires catalog.budget == budget && |pairs| <= INVENTORY_MATCHES_PER_PAGE
      requires n <= m <= |snapshot.matches| && pairs == KeysInOrder(snapshot.matches)[n..m]
      requires Enumerated(snapshot, n, pages, catalog.View())
      modifies this, catalog, budget`usedBytes, budget`trackedCatalogBytes, budget`pageCount
      modifies budget.disk`probes, budget.disk`commits, budget.disk`catalogBytes, budget.disk`inventory, budget.disk`data
      ensures old(budget.disk.probes) <= budget.disk.probes
      ensures old(budget.Accounted()) ==> budget.Accounted()
      ensures budget.disk.data == old(budget.disk.data)
      ensures error.None? ==>
                && Enumerated(snapshot, m, pages, catalog.View())
                && |pages| == |old(pages)| + 1 && pages[..|old(pages)|] == old(pages) && pages[|old(pages)|].pairs == pairs
                && Lengths(pages) == Lengths(old(pages)) + [pages[|old(pages)|].length]
                && budget.disk.inventory == old(budget.disk.inventory) + [pages[|old(pages)|].length]
                && budget.pageCount == old(budget.pageCount) + 1 < budget.maxPages
      ensures error.Some? ==> error.value in {WorkspaceLimit, UnsendableClosure, MissingGraphHash}
      ensures error == Some(MissingGraphHash) ==> !ForeignKeys(snapshot)
      ensures error == Some(UnsendableClosure) ==>
                Unlistable(snapshot, old(budget.disk.probes), budget.View(), budget.disk.freeAt, KeysInOrder(snapshot.matches))
    {
      hide TrueHashes, Unlistable, Describes, RecordInventory;
      ghost var had, c := pages, catalog.View();
      error := SpoolPage(pairs);
      if error.None? {
        var page := pages[|had|];
        assert pages == had + [page];
        OneMorePage(snapshot, n, m, had, c, page);
      } else {
        if error == Some(UnsendableClosure) {
          UnlistableAmongMore(
            snapshot, old(budget.disk.probes), old(budget.disk.probes), budget.View(), budget.disk.freeAt,
            pairs, KeysInOrder(snapshot.matches));
        }
        KeysOfAll(snapshot.matches);
        assert SetOf(pairs) <= SetOf(KeysInOrder(snapshot.matches));
        if ForeignKeys(snapshot) {
          ListedSubset(snapshot, SetOf(pairs), Keys(snapshot.matches));
        }
      }
    }

    /**
      `_spool_inventory_pages`: every match of the snapshot is enumerated, once
      and in key order, hashed, advertised, and written, with room left for a
      data page.
    */
    method SpoolInventoryPages() returns (error: Option<SyncError>)
      requires catalog.budget == budget && pages == [] && catalog.View() == EMPTY_CATALOG
      requires InKeyOrder(snapshot.matches)
      modifies this, catalog, budget`usedBytes, budget`trackedCatalogBytes, budget`pageCount
      modifies budget.disk`probes, budget.disk`commits, budget.disk`catalogBytes, budget.disk`inventory, budget.disk`data
      ensures old(budget.Accounted()) ==> budget.Accounted()
      ensures budget.disk.data == old(budget.disk.data)
      ensures error.None? ==>
                && pages != []
                && Enumerated(snapshot, |snapshot.matches|, pages, catalog.View())
                && PairsOf(pages) == KeysInOrder(snapshot.matches) && FullPages(pages, false)
                && Describes(snapshot, Keys(snapshot.matches), catalog.View().advertised)
                && budget.disk.inventory == old(budget.disk.inventory) + Lengths(pages)
                && budget.pageCount == old(budget.pageCount) + |pages| < budget.maxPages
      ensures error.Some? ==> error.value in {WorkspaceLimit, UnsendableClosure, MissingGraphHash}
      ensures error == Some(MissingGraphHash) ==> !ForeignKeys(snapshot)
      ensures error == Some(UnsendableClosure) ==>
                Unlistable(snapshot, old(budget.disk.probes), budget.View(), budget.disk.freeAt, KeysInOrder(snapshot.matches))
    {
      hide Unlistable, Describes, Enumerated, FetchInventoryRows, InKeyOrder, ForeignKeys, PairsOf;
      NothingEnumerated(snapshot);
      var cursor := None;
      ghost var n := 0;
      while true
        invariant n <= |snapshot.matches|
        invariant cursor == if n == 0 then None else Some(snapshot.matches[n - 1].key)
        invariant Enumerated(snapshot, n, pages, catalog.View())
        invariant pages == [] <==> n == 0
        invariant FullPages(pages, n < |snapshot.matches|)
        invariant budget.disk.inventory == old(budget.disk.inventory) + Lengths(pages)
        invariant budget.pageCount == old(budget.pageCount) + |pages|
        invariant n > 0 ==> budget.pageCount < budget.maxPages
        invariant old(budget.Accounted()) ==> budget.Accounted()
        invariant budget.disk.data == old(budget.disk.data) && old(budget.disk.probes) <= budget.disk.probes
        decreases |snapshot.matches| - n
      {
        var rows := FetchInventoryRows(snapshot, cursor, INVENTORY_MATCHES_PER_PAGE);
        NextRows(snapshot, n, cursor, INVENTORY_MATCHES_PER_PAGE);
        if rows == [] {
          break;
        }
        ghost var probes := budget.disk.probes;
        error := NextPage(rows, n, n + |rows|);
        if error.Some? {
          if error == Some(UnsendableClosure) {
            UnlistableAmongMore(
              snapshot, old(budget.disk.probes), probes, budget.View(), budget.disk.freeAt,
              KeysInOrder(snapshot.matches), KeysInOrder(snapshot.matches));
          }
          return;
        }
        n := n + |rows|;
        cursor := Some(rows[|rows| - 1]);
      }
      if pages == [] {
        ghost var probes := budget.disk.probes;
        error := NextPage([], 0, 0);
        if error == Some(UnsendableClosure) {
          UnlistableAmongMore(
            snapshot, old(budget.disk.probes), probes, budget.View(), budget.disk.freeAt,
            KeysInOrder(snapshot.matches), KeysInOrder(snapshot.matches));
        }
      } else {
        error := None;
      }
      if error.None? {
        AllEnumerated(snapshot, pages, catalog.View());
      }
    }
  }
}
