/**
  A requested match that vanishes between the snapshots can go unnoticed: a
  batch split before verification takes its expectations from the rows that are
  left (`SyncData.VanishedPairsReportedExactly` says exactly when). This module
  runs the spooler on one such database, with pages as long as their rows.
*/
module SyncDataGap {
  import opened Artworks
  import opened Results
  import opened Tables
  import opened Sequences
  import opened SyncErrors
  import opened SyncBudget
  import opened SyncGraph
  import opened SyncCatalogs
  import opened SyncData

  const MIB: nat := 1024 * 1024

  const SCORE := Match(None, None, None, 0)
  const ROW1: Rec<Pair, Match> := Rec(Pair(1, 1), SCORE, 10)
  const ROW2: Rec<Pair, Match> := Rec(Pair(2, 1), SCORE, 10)
  const ROW3: Rec<Pair, Match> := Rec(Pair(3, 1), SCORE, 10)
  const LARGE1: Rec<Id, Lost> := Rec(1, Lost([], None, None, 0), 3 * MIB)
  const LARGE2: Rec<Id, Lost> := Rec(2, Lost([], None, None, 0), 3 * MIB)
  const LARGE3: Rec<Id, Lost> := Rec(3, Lost([], None, None, 0), 3 * MIB)
  const LOT: Rec<Id, Auction> := Rec(1, Auction(None, None, None, None, None, None, 0), 10)

  function Database(lost: seq<Rec<Id, Lost>>, matches: seq<Rec<Pair, Match>>): Snapshot {
    Snapshot(Graph([], [], [], [], [], [], [], [], [], lost, [LOT], [], []), [], matches)
  }

  /** The advertised database, and the one the data phase sees: match (3, 1) is gone. */
  const BEFORE := Database([LARGE1, LARGE2, LARGE3], [ROW1, ROW2, ROW3])
  const AFTER := Database([LARGE1, LARGE2], [ROW1, ROW2])

  const REQUESTED: seq<Pair> := [Pair(1, 1), Pair(2, 1), Pair(3, 1)]

  /** The rows of a page in key order. */
  function RowsInOrder(matches: map<Pair, Rec<Pair, Match>>): seq<Rec<Pair, Match>> {
    var keys := Sorted(PairBefore, matches.Keys);
    seq(|keys|, i requires 0 <= i < |keys| => assert keys[i] in matches.Keys; matches[keys[i]])
  }

  /** The text of every row on the page, with 256 bytes a row for its key and hash. */
  function PageText(c: Content): nat {
    1000 + Cost(RowsInOrder(c.matches)) + ClosureCost(c.graph)
  }

  const ENCODING := Codec(
    rows => 2 + Cost(rows),
    content => PageText(content),
    content => PageText(content) + 100)
  const PLENTY_FREE: nat -> int := n => 1024 * MIB
  const FRESH := Workspace(2048 * MIB, 4096, 0, 0, 0)

  lemma SelectOne<K(!new), R(!new)>(x: Rec<K, R>, ids: set<K>)
    ensures Select([x], ids) == if x.key in ids then [x] else []
  {
  }

  lemma SelectTwo<K(!new), R(!new)>(x: Rec<K, R>, y: Rec<K, R>, ids: set<K>)
    ensures Select([x, y], ids) == (if x.key in ids then [x] else []) + (if y.key in ids then [y] else [])
  {
    assert [x, y][1..] == [y];
    SelectOne(y, ids);
  }

  lemma CostOne<K, R>(x: Rec<K, R>)
    ensures Cost([x]) == x.bytes + ROW_OVERHEAD_BYTES
  {
    assert [x][1..] == [];
    assert TotalBytes([x]) == x.bytes + TotalBytes([x][1..]) == x.bytes;
    assert |[x]| == 1;
  }

  lemma CostTwo<K, R>(x: Rec<K, R>, y: Rec<K, R>)
    ensures Cost([x, y]) == x.bytes + y.bytes + 2 * ROW_OVERHEAD_BYTES
  {
    assert [x, y][1..] == [y];
    CostOne(y);
  }

  /** Besides the lost artworks and the one lot, a batch of this database loads nothing. */
  lemma CostOfRows(rows: seq<Rec<Pair, Match>>)
    requires rows != [] && forall x :: x in rows ==> x.key.auction == 1 && x.row == SCORE
    ensures var g := LoadGraph(AFTER, rows, {}, {});
            ClosureCost(g) == Cost(Select([LARGE1, LARGE2], LostIds(rows))) + 10 + ROW_OVERHEAD_BYTES
  {
    var g := LoadGraph(AFTER, rows, {}, {});
    assert rows[0] in rows && rows[0].key.auction in AuctionIds(rows);
    SelectOne(LOT, AuctionIds(rows) + {});
    assert g.auction == [LOT];
    CostOne(LOT);
    assert LostIds(rows) + {} == LostIds(rows);
    assert g.lost == Select([LARGE1, LARGE2], LostIds(rows));
  }

  lemma Ids()
    ensures LostIds([ROW1]) == {1} && LostIds([ROW2]) == {2} && LostIds([ROW1, ROW2]) == {1, 2}
  {
  }

  lemma Estimates(src: Source)
    requires src.snapshot == AFTER && src.codec == ENCODING
    ensures ClosureEstimate(src, Batch([ROW1, ROW2], [])) > TARGET_BYTES
    ensures ClosureEstimate(src, Batch([ROW1], [])) <= HARD_LIMIT
    ensures ClosureEstimate(src, Batch([ROW2], [])) <= HARD_LIMIT
  {
    hide LoadGraph;
    Ids();
    assert LostOf([]) == {} && AuctionOf([]) == {};
    CostOfRows([ROW1]);
    CostOfRows([ROW2]);
    CostOfRows([ROW1, ROW2]);
    LargeCosts();
    CostOne(ROW1);
    CostOne(ROW2);
  }

  lemma LargeCosts()
    ensures Cost(Select([LARGE1, LARGE2], {1})) == 3 * MIB + ROW_OVERHEAD_BYTES
    ensures Cost(Select([LARGE1, LARGE2], {2})) == 3 * MIB + ROW_OVERHEAD_BYTES
    ensures Cost(Select([LARGE1, LARGE2], {1, 2})) == 6 * MIB + 2 * ROW_OVERHEAD_BYTES
  {
    SelectTwo(LARGE1, LARGE2, {1});
    SelectTwo(LARGE1, LARGE2, {2});
    SelectTwo(LARGE1, LARGE2, {1, 2});
    CostOne(LARGE1);
    CostOne(LARGE2);
    CostTwo(LARGE1, LARGE2);
  }

  lemma OneRowText(c: Content, row: Rec<Pair, Match>)
    requires c.matches == map[row.key := row]
    ensures PageText(c) == 1000 + row.bytes + ROW_OVERHEAD_BYTES + ClosureCost(c.graph)
  {
    hide ClosureCost;
    var keys := Sorted(PairBefore, c.matches.Keys);
    assert c.matches.Keys == {row.key} && |keys| == 1 && keys[0] in keys;
    assert RowsInOrder(c.matches) == [row];
    CostOne(row);
  }

  /** A page of one row is over 3 MiB and under 4 MiB. */
  lemma PageLengths(row: Rec<Pair, Match>)
    requires row == ROW1 || row == ROW2
    ensures 3 * MIB < PageText(ContentOf(AFTER, Batch([row], []))) < 3 * MIB + 10000
  {
    hide LoadGraph, GraphHashes, PageText, ClosureCost;
    Ids();
    assert LostOf([]) == {} && AuctionOf([]) == {};
    CostOfRows([row]);
    LargeCosts();
    assert [row][..0] == [];
    assert MatchDict([row]) == map[row.key := row];
    OneRowText(ContentOf(AFTER, Batch([row], [])), row);
  }

  lemma LostKeys(a: Rec<Id, Lost>, b: Rec<Id, Lost>)
    ensures Keys([a, b]) == {a.key, b.key}
    ensures a.key != b.key ==> UniqueKeys([a, b])
  {
  }

  lemma ThreeLostKeys(a: Rec<Id, Lost>, b: Rec<Id, Lost>, c: Rec<Id, Lost>)
    ensures Keys([a, b, c]) == {a.key, b.key, c.key}
    ensures a.key != b.key && b.key != c.key && a.key != c.key ==> UniqueKeys([a, b, c])
  {
    assert a in [a, b, c] && b in [a, b, c] && c in [a, b, c];
    assert [a, b, c][1..] == [b, c];
    LostKeys(b, c);
  }

  lemma Valid()
    ensures ValidSnapshot(BEFORE) && ValidSnapshot(AFTER)
  {
    LostKeys(LARGE1, LARGE2);
    ThreeLostKeys(LARGE1, LARGE2, LARGE3);
    assert [LOT][1..] == [];
  }

  /** Deleting matches and artworks leaves every remaining hash as it was. */
  lemma DeletionsKeepHashes(was: Snapshot, now: Snapshot, h: Hashes)
    requires now.storedImages == was.storedImages
    requires now.graph.(lost := [], auction := []) == was.graph.(lost := [], auction := [])
    requires forall x :: x in now.graph.lost ==> x in was.graph.lost
    requires forall x :: x in now.graph.auction ==> x in was.graph.auction
    requires forall x :: x in now.matches ==> x in was.matches
    requires TrueHashes(now, h)
    ensures TrueHashes(was, h)
  {
  }

  lemma BeforeIds(rows: seq<Rec<Pair, Match>>)
    requires rows == [ROW1, ROW2, ROW3]
    ensures Keys(rows) == SetOf(REQUESTED) && LostIds(rows) == {1, 2, 3} && AuctionIds(rows) == {1}
  {
  }

  /** The inventory of a snapshot in which every listed endpoint exists. */
  lemma InventoryKeys(s: Snapshot, rows: seq<Rec<Pair, Match>>)
    requires forall x :: x in rows ==> x in s.matches
    requires Keys(s.graph.lost) == LostIds(rows) && Keys(s.graph.auction) == AuctionIds(rows)
    ensures var h := BuildContent(s, rows, {}, {}).hashes;
            && TrueHashes(s, h)
            && h.matches.Keys == Keys(rows) && h.lost.Keys == LostIds(rows) && h.auction.Keys == AuctionIds(rows)
  {
    BatchIndependence(s, rows, {}, {});
  }

  lemma LotKey()
    ensures Keys([LOT]) == {1}
  {
  }

  /** The catalog after the first snapshot was inventoried and everything requested. */
  lemma Inventoried() returns (c: Catalog)
    ensures TrueHashes(BEFORE, c.advertised)
    ensures c.advertised.lost.Keys == {1, 2, 3} && c.advertised.auction.Keys == {1}
    ensures c.advertised.matches.Keys == SetOf(REQUESTED)
    ensures c.requestedMatches == SetOf(REQUESTED)
  {
    BeforeIds(BEFORE.matches);
    ThreeLostKeys(LARGE1, LARGE2, LARGE3);
    LotKey();
    InventoryKeys(BEFORE, BEFORE.matches);
    c := Catalog(BuildContent(BEFORE, BEFORE.matches, {}, {}).hashes, SetOf(REQUESTED), {1, 2, 3}, {1});
  }

  lemma ExpectedOfOne(row: Rec<Pair, Match>)
    ensures ExpectedOf(Batch([row], [])) == Expected({row.key}, {row.key.lost}, {row.key.auction})
    ensures Keys([row]) == {row.key}
    ensures LostIds([row]) + LostOf([]) == {row.key.lost} && AuctionIds([row]) + AuctionOf([]) == {row.key.auction}
  {
  }

  lemma Meet(s: set<Id>, x: Id)
    requires x in s
    ensures s * {x} == {x}
  {
  }

  /** `now` is `was` after deletions. */
  ghost predicate AfterDeletions(was: Snapshot, now: Snapshot) {
    && now.storedImages == was.storedImages
    && now.graph.(lost := [], auction := []) == was.graph.(lost := [], auction := [])
    && (forall x :: x in now.graph.lost ==> x in was.graph.lost)
    && (forall x :: x in now.graph.auction ==> x in was.graph.auction)
    && (forall x :: x in now.matches ==> x in was.matches)
  }

  lemma SurvivorHashes(was: Snapshot, now: Snapshot, row: Rec<Pair, Match>)
    requires AfterDeletions(was, now) && row in now.matches
    requires row.key.lost in Keys(now.graph.lost) && row.key.auction in Keys(now.graph.auction)
    ensures var h := ContentOf(now, Batch([row], [])).hashes;
            && TrueHashes(was, h)
            && h.matches.Keys == {row.key} && h.lost.Keys == {row.key.lost} && h.auction.Keys == {row.key.auction}
  {
    BatchIndependence(now, [row], LostOf([]), AuctionOf([]));
    ExpectedOfOne(row);
    DeletionsKeepHashes(was, now, ContentOf(now, Batch([row], [])).hashes);
    Meet(Keys(now.graph.lost), row.key.lost);
    Meet(Keys(now.graph.auction), row.key.auction);
  }

  lemma OneKnown(c: Catalog, row: Rec<Pair, Match>, h: Hashes)
    requires row.key in c.advertised.matches && row.key.lost in c.advertised.lost && row.key.auction in c.advertised.auction
    requires h.matches.Keys == {row.key} && h.lost.Keys == {row.key.lost} && h.auction.Keys == {row.key.auction}
    ensures h.matches.Keys <= c.advertised.matches.Keys
    ensures h.lost.Keys <= c.advertised.lost.Keys
    ensures h.auction.Keys <= c.advertised.auction.Keys
  {
  }

  lemma OneVerifies(was: Snapshot, c: Catalog, row: Rec<Pair, Match>, h: Hashes)
    requires ValidSnapshot(was) && TrueHashes(was, c.advertised) && TrueHashes(was, h)
    requires row.key in c.advertised.matches && row.key.lost in c.advertised.lost && row.key.auction in c.advertised.auction
    requires h.matches.Keys == {row.key} && h.lost.Keys == {row.key.lost} && h.auction.Keys == {row.key.auction}
    ensures Verified(c, h, Expected({row.key}, {row.key.lost}, {row.key.auction}))
  {
    OneKnown(c, row, h);
    AdvertisedAgree(was, c.advertised, h);
  }

  /** A surviving pair with its endpoints still verifies against the older inventory. */
  lemma SurvivorVerifies(was: Snapshot, now: Snapshot, c: Catalog, row: Rec<Pair, Match>)
    requires ValidSnapshot(was) && TrueHashes(was, c.advertised)
    requires AfterDeletions(was, now) && row in now.matches
    requires row.key in c.advertised.matches
    requires row.key.lost in c.advertised.lost && row.key.lost in Keys(now.graph.lost)
    requires row.key.auction in c.advertised.auction && row.key.auction in Keys(now.graph.auction)
    ensures Verified(c, ContentOf(now, Batch([row], [])).hashes, ExpectedOf(Batch([row], [])))
  {
    SurvivorHashes(was, now, row);
    ExpectedOfOne(row);
    OneVerifies(was, c, row, ContentOf(now, Batch([row], [])).hashes);
  }

  predicate Roomy(w: Workspace) {
    w.maxBytes == 2048 * MIB && w.maxPages == 4096 && 0 <= w.used <= 8 * MIB && w.pageCount <= 2
  }

  lemma RoomForPages(w: Workspace)
    requires Roomy(w)
    ensures var (w1, limit) := NextPageLimit(w, PLENTY_FREE, TARGET_BYTES);
            limit == Ok(TARGET_BYTES) && w1 == w.(probes := w1.probes)
    ensures var (w1, limit) := NextPageLimit(w, PLENTY_FREE, HARD_LIMIT);
            limit == Ok(HARD_LIMIT) && w1 == w.(probes := w1.probes)
    ensures forall size: nat :: size <= 4 * MIB ==> ReservePage(w, PLENTY_FREE, size).1.None?
  {
  }

  /** `row`'s batch verifies and fits one page. */
  ghost predicate Sendable(src: Source, row: Rec<Pair, Match>) {
    var b := Batch([row], []);
    && Verified(src.catalog, ContentOf(src.snapshot, b).hashes, ExpectedOf(b))
    && ClosureEstimate(src, b) <= HARD_LIMIT
    && src.codec.contentLength(ContentOf(src.snapshot, b)) <= 4 * MIB
    && src.codec.contentGzip(ContentOf(src.snapshot, b)) <= GZIP_LIMIT
  }

  lemma SingleRowPage(src: Source, w: Workspace, row: Rec<Pair, Match>)
    requires src.free == PLENTY_FREE && Sendable(src, row) && Roomy(w)
    ensures var b := Batch([row], []);
            var r := SpoolContent(src, w, b, ExpectedOf(b));
            && r.error.None?
            && r.work.maxBytes == w.maxBytes && r.work.maxPages == w.maxPages
            && w.used <= r.work.used <= w.used + 4 * MIB && r.work.pageCount == w.pageCount + 1
  {
    hide NextPageLimit, ReservePage, ContentOf, ClosureEstimate, Verified, ExpectedOf;
    RoomForPages(w);
    var w1 := NextPageLimit(w, PLENTY_FREE, HARD_LIMIT).0;
    RoomForPages(w1);
    assert ItemCount(Batch([row], [])) == 1;
  }

  lemma SplitSendsBoth(src: Source, w: Workspace, one: Rec<Pair, Match>, two: Rec<Pair, Match>)
    requires src.free == PLENTY_FREE && Sendable(src, one) && Sendable(src, two)
    requires Roomy(w) && w.pageCount == 0 && w.used == 0
    ensures SplitContent(src, w, Batch([one, two], [])).error.None?
  {
    hide Sendable, SpoolContent, ExpectedOf;
    var b, left, right := Batch([one, two], []), Batch([one], []), Batch([two], []);
    assert b.rows[..1] == [one] && b.rows[1..] == [two];
    assert Halves(b) == (left, right);
    SingleRowPage(src, w, one);
    SingleRowPage(src, SpoolContent(src, w, left, ExpectedOf(left)).work, two);
  }

  lemma BothRowsFetched()
    ensures Present(AFTER, SetOf(REQUESTED)) == [ROW1, ROW2]
    ensures FIXED_OVERHEAD_BYTES + Cost([ROW1, ROW2]) <= TARGET_BYTES
  {
    assert REQUESTED[0] in REQUESTED && REQUESTED[1] in REQUESTED && REQUESTED[2] in REQUESTED;
    SelectTwo(ROW1, ROW2, SetOf(REQUESTED));
    CostTwo(ROW1, ROW2);
  }

  lemma BothRowsVerify(c: Catalog)
    requires TrueHashes(BEFORE, c.advertised)
    requires c.advertised.lost.Keys == {1, 2, 3} && c.advertised.auction.Keys == {1}
    requires c.advertised.matches.Keys == SetOf(REQUESTED)
    ensures Verified(c, ContentOf(AFTER, Batch([ROW1], [])).hashes, ExpectedOf(Batch([ROW1], [])))
    ensures Verified(c, ContentOf(AFTER, Batch([ROW2], [])).hashes, ExpectedOf(Batch([ROW2], [])))
  {
    Valid();
    LostKeys(LARGE1, LARGE2);
    LotKey();
    assert REQUESTED[0] in REQUESTED && REQUESTED[1] in REQUESTED;
    SurvivorVerifies(BEFORE, AFTER, c, ROW1);
    SurvivorVerifies(BEFORE, AFTER, c, ROW2);
  }

  lemma RowsAreSendable(src: Source)
    requires src.snapshot == AFTER && src.codec == ENCODING && TrueHashes(BEFORE, src.catalog.advertised)
    requires src.catalog.advertised.lost.Keys == {1, 2, 3} && src.catalog.advertised.auction.Keys == {1}
    requires src.catalog.advertised.matches.Keys == SetOf(REQUESTED)
    ensures Sendable(src, ROW1) && Sendable(src, ROW2)
  {
    hide ContentOf, ClosureEstimate, Verified, TrueHashes, PageText;
    BothRowsVerify(src.catalog);
    Estimates(src);
    PageLengths(ROW1);
    PageLengths(ROW2);
  }

  lemma RequestedInKeyOrder()
    ensures Ordered(PairBefore, REQUESTED) && InKeyOrder(AFTER.matches)
    ensures Pair(3, 1) in REQUESTED && Pair(3, 1) !in Keys(AFTER.matches)
  {
    assert REQUESTED[2] in REQUESTED;
  }

  /**
    The gap, concretely: the data phase finishes without an error for three
    requested matches of which it sends two. The full closure of the batch is
    over 4 MiB, so the batch is split before it is compared with the request.
  */
  lemma VanishedMatchGoesUnnoticed() returns (src: Source)
    ensures ValidSnapshot(BEFORE) && ValidSnapshot(AFTER)
    ensures src.snapshot == AFTER && TrueHashes(BEFORE, src.catalog.advertised)
    ensures forall c :: src.codec.contentLength(c) >= TotalBytes(RowsInOrder(c.matches)) + TotalBytes(c.graph.lost)
    ensures src.catalog.requestedMatches == SetOf(REQUESTED) && Pair(3, 1) in REQUESTED
    ensures var r := SpoolPairs(src, FRESH, REQUESTED);
            r.error.None? && SentRows(r.pages) == [ROW1, ROW2]
  {
    hide ContentOf, ClosureEstimate, Verified, TrueHashes, SplitContent, SpoolContent, NextPageLimit;
    Valid();
    var c := Inventoried();
    src := Source(AFTER, ENCODING, c, PLENTY_FREE);
    RequestedInKeyOrder();
    BothRowsFetched();
    Estimates(src);
    RowsAreSendable(src);
    RoomForPages(FRESH);
    RoomForPages(FetchLimit(src, FRESH, REQUESTED).0);
    assert RemainingBatch(src, REQUESTED) == Batch([ROW1, ROW2], []);
    SplitSendsBoth(src, ClosureLimit(src, FRESH, REQUESTED).0, ROW1, ROW2);
    VanishedPairsReportedExactly(src, FRESH, REQUESTED);
  }
}
