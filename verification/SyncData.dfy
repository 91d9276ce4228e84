/**
  Requested data pages: bounded loading, verification and recursive splitting
  (telemetry/sync_data.py).

  `SpoolContent`, `SpoolPairs` and `SpoolAll` say what the spooler computes from
  the second snapshot, the catalog and the budget; the methods of `SyncSpooler`
  compute it in place.
*/
module SyncData {
  import opened Artworks
  import opened Results
  import opened Tables
  import opened Sequences
  import opened SyncErrors
  import opened SyncBudget
  import opened SyncGraph
  import opened SyncCatalogs

  const DATA_MATCHES_PER_PAGE: nat := 100
  const TARGET_BYTES: nat := 4 * 1024 * 1024
  const MAX_UNCOMPRESSED_BYTES: nat := 20 * 1024 * 1024
  const MAX_COMPRESSED_BYTES: nat := 5 * 1024 * 1024
  const ENVELOPE_RESERVE_BYTES: nat := 512 * 1024
  const HARD_LIMIT: nat := MAX_UNCOMPRESSED_BYTES - ENVELOPE_RESERVE_BYTES
  const GZIP_LIMIT: nat := MAX_COMPRESSED_BYTES - ENVELOPE_RESERVE_BYTES

  /** Lengths of canonical JSON and of its gzip, as arbitrary functions of the value. */
  datatype Codec = Codec(
    rowsLength: seq<Rec<Pair, Match>> -> nat,
    contentLength: Content -> nat,
    contentGzip: Content -> nat)

  /** Everything a spooling run reads and does not change. */
  datatype Source = Source(snapshot: Snapshot, codec: Codec, catalog: Catalog, free: nat -> int)

  /** Match rows, or artworks on their own: lost ids in order, then auction ids in order. */
  datatype Batch = Batch(rows: seq<Rec<Pair, Match>>, extras: seq<Entity>)

  function LostOf(extras: seq<Entity>): set<Id> {
    set e | e in extras && e.LostEntity? :: e.id
  }

  function AuctionOf(extras: seq<Entity>): set<Id> {
    set e | e in extras && e.AuctionEntity? :: e.id
  }

  function ItemCount(b: Batch): nat {
    |b.rows| + |b.extras|
  }

  /** The callers never put match rows and separate artworks in one batch. */
  predicate Unmixed(b: Batch) {
    b.rows == [] || b.extras == []
  }

  function ContentOf(s: Snapshot, b: Batch): Content {
    BuildContent(s, b.rows, LostOf(b.extras), AuctionOf(b.extras))
  }

  function ExpectedOfPairs(pairs: set<Pair>): Expected {
    Expected(pairs, set p | p in pairs :: p.lost, set p | p in pairs :: p.auction)
  }

  function ExpectedOf(b: Batch): Expected {
    Expected(Keys(b.rows), LostIds(b.rows) + LostOf(b.extras), AuctionIds(b.rows) + AuctionOf(b.extras))
  }

  /** A spooled page, with the batch it was cut for. */
  datatype Page = Page(batch: Batch, content: Content, length: nat)

  datatype Spooled = Spooled(work: Workspace, pages: seq<Page>, error: Option<SyncError>)

  function RequestedLimit(items: nat): nat {
    if items > 1 then TARGET_BYTES else HARD_LIMIT
  }

  function ClosureEstimate(src: Source, b: Batch): nat {
    FIXED_OVERHEAD_BYTES
    + (if b.rows == [] then 0 else src.codec.rowsLength(b.rows) + |b.rows| * ROW_OVERHEAD_BYTES)
    + ClosureCost(LoadGraph(src.snapshot, b.rows, LostOf(b.extras), AuctionOf(b.extras)))
  }

  /** The two halves `_split_data_content` recurses into. */
  function Halves(b: Batch): (Batch, Batch) {
    if |b.rows| > 1 then
      var middle := |b.rows| / 2;
      (Batch(b.rows[..middle], []), Batch(b.rows[middle..], []))
    else
      var middle := |b.extras| / 2;
      (Batch([], b.extras[..middle]), Batch([], b.extras[middle..]))
  }

  /** What becomes of a batch before anything is written: an error, a split, or a page. */
  datatype Attempt = Stop(error: SyncError) | Split | Emit(page: Page)

  /** A loaded closure is verified, then measured. */
  function JudgeContent(src: Source, b: Batch, e: Expected, content: Content): (r: Attempt)
    ensures r.Split? ==> ItemCount(b) > 1
  {
    var length, gzip := src.codec.contentLength(content), src.codec.contentGzip(content);
    if !Verified(src.catalog, content.hashes, e) then Stop(SnapshotChanged)
    else if (length > TARGET_BYTES || gzip > GZIP_LIMIT) && ItemCount(b) > 1 then Split
    else if length > HARD_LIMIT || gzip > GZIP_LIMIT then Stop(UnsendableClosure)
    else Emit(Page(b, content, length))
  }

  function TryContent(src: Source, w: Workspace, b: Batch, e: Expected): (r: (Workspace, Attempt))
    ensures r.1.Split? ==> ItemCount(b) > 1
  {
    var (w1, limit) := NextPageLimit(w, src.free, RequestedLimit(ItemCount(b)));
    if limit.Err? then (w1, Stop(limit.error))
    else if ClosureEstimate(src, b) > limit.value then
      (w1, if ItemCount(b) > 1 then Split else Stop(UnsendableClosure))
    else (w1, JudgeContent(src, b, e, ContentOf(src.snapshot, b)))
  }

  function SpoolContent(src: Source, w: Workspace, b: Batch, e: Expected): Spooled
    decreases ItemCount(b), 1
  {
    match TryContent(src, w, b, e)
    case (w1, Stop(error)) => Spooled(w1, [], Some(error))
    case (w1, Split) => SplitContent(src, w1, b)
    case (w1, Emit(page)) =>
      var (w2, failed) := ReservePage(w1, src.free, page.length);
      Spooled(w2, if failed.None? then [page] else [], failed)
  }

  function SplitContent(src: Source, w: Workspace, b: Batch): Spooled
    requires ItemCount(b) > 1
    decreases ItemCount(b), 0
  {
    var (left, right) := Halves(b);
    var first := SpoolContent(src, w, left, ExpectedOf(left));
    if first.error.Some? then first
    else
      var second := SpoolContent(src, first.work, right, ExpectedOf(right));
      Spooled(second.work, first.pages + second.pages, second.error)
  }

  function SetOf<T>(s: seq<T>): set<T> {
    set x | x in s
  }

  function SpoolPairs(src: Source, w: Workspace, pairs: seq<Pair>): Spooled
    decreases |pairs|, 1
  {
    if pairs == [] then
      Spooled(w, [], None)
    else
      var (w1, limit) := NextPageLimit(w, src.free, RequestedLimit(|pairs|));
      var rows := Select(src.snapshot.matches, SetOf(pairs));
      if limit.Err? then
        Spooled(w1, [], Some(limit.error))
      else if FIXED_OVERHEAD_BYTES + Cost(rows) > limit.value then
        if |pairs| > 1 then SplitPairs(src, w1, pairs) else Spooled(w1, [], Some(UnsendableClosure))
      else
        SpoolContent(src, w1, Batch(rows, []), ExpectedOfPairs(SetOf(pairs)))
  }

  function SplitPairs(src: Source, w: Workspace, pairs: seq<Pair>): Spooled
    requires |pairs| > 1
    decreases |pairs|, 0
  {
    var middle := |pairs| / 2;
    var first := SpoolPairs(src, w, pairs[..middle]);
    if first.error.Some? then first
    else
      var second := SpoolPairs(src, first.work, pairs[middle..]);
      Spooled(second.work, first.pages + second.pages, second.error)
  }

  function SpoolPairBatches(src: Source, w: Workspace, batches: seq<seq<Pair>>): Spooled
    decreases |batches|
  {
    if batches == [] then Spooled(w, [], None)
    else
      var first := SpoolPairs(src, w, batches[0]);
      if first.error.Some? then first
      else
        var rest := SpoolPairBatches(src, first.work, batches[1..]);
        Spooled(rest.work, first.pages + rest.pages, rest.error)
  }

  function SpoolExtraBatches(src: Source, w: Workspace, batches: seq<seq<Entity>>): Spooled
    decreases |batches|
  {
    if batches == [] then Spooled(w, [], None)
    else
      var b := Batch([], batches[0]);
      var first := SpoolContent(src, w, b, ExpectedOf(b));
      if first.error.Some? then first
      else
        var rest := SpoolExtraBatches(src, first.work, batches[1..]);
        Spooled(rest.work, first.pages + rest.pages, rest.error)
  }

  /** Nothing requested still sends one page, unsplit and unbudgeted. */
  function SpoolEmptyPage(src: Source, w: Workspace): Spooled {
    var (w1, full) := EnsurePageCapacity(w, src.free, 0);
    var b := Batch([], []);
    var content := ContentOf(src.snapshot, b);
    var length := src.codec.contentLength(content);
    if full.Some? then Spooled(w1, [], full)
    else if !Verified(src.catalog, content.hashes, ExpectedOf(b)) then Spooled(w1, [], Some(SnapshotChanged))
    else
      var (w2, failed) := ReservePage(w1, src.free, length);
      Spooled(w2, if failed.None? then [Page(b, content, length)] else [], failed)
  }

  function SpoolArtworks(src: Source, w: Workspace): Spooled {
    var lost := SpoolExtraBatches(src, w, Chunks(LostEntities(ExtraLost(src.catalog)), DATA_MATCHES_PER_PAGE));
    if lost.error.Some? then lost
    else
      var auction := SpoolExtraBatches(
        src, lost.work, Chunks(AuctionEntities(ExtraAuction(src.catalog)), DATA_MATCHES_PER_PAGE));
      Spooled(auction.work, lost.pages + auction.pages, auction.error)
  }

  function SpoolRequested(src: Source, w: Workspace): Spooled {
    var matched := SpoolPairBatches(src, w, Chunks(RequestedInOrder(src.catalog), DATA_MATCHES_PER_PAGE));
    if matched.error.Some? then matched
    else
      var artworks := SpoolArtworks(src, matched.work);
      Spooled(artworks.work, matched.pages + artworks.pages, artworks.error)
  }

  function SpoolAll(src: Source, w: Workspace): Spooled {
    var requested := SpoolRequested(src, w);
    if requested.error.Some? || requested.pages != [] then requested else SpoolEmptyPage(src, requested.work)
  }

  // -------------------------------------------------------- What an estimate covers

  lemma {:induction false} CostCovers<K(!new), R(!new)>(t: seq<Rec<K, R>>, x: Rec<K, R>)
    requires x in t
    ensures x.bytes + ROW_OVERHEAD_BYTES <= Cost(t)
  {
    if x != t[0] {
      assert t == [t[0]] + t[1..];
      CostCovers(t[1..], x);
    }
  }

  /** Each row of the table, with 256 bytes for the row itself, is within the bytes. */
  ghost predicate Covered<K(!new), R(!new)>(t: seq<Rec<K, R>>, bytes: int) {
    forall x :: x in t ==> x.bytes + 256 <= bytes
  }

  lemma CostCoversAll<K(!new), R(!new)>(t: seq<Rec<K, R>>, bytes: int)
    requires Cost(t) <= bytes
    ensures Covered(t, bytes)
  {
    forall x | x in t ensures x.bytes + 256 <= bytes {
      CostCovers(t, x);
    }
  }

  /** Whichever of the tables a row is in. */
  ghost predicate GraphCovered(g: Graph, bytes: int) {
    && Covered(g.lost, bytes) && Covered(g.auction, bytes) && Covered(g.artists, bytes)
    && Covered(g.institutions, bytes) && Covered(g.literature, bytes) && Covered(g.platforms, bytes)
    && Covered(g.auctioneers, bytes) && Covered(g.experts, bytes) && Covered(g.programs, bytes)
    && Covered(g.locations, bytes) && Covered(g.lostLinks, bytes) && Covered(g.auctionLinks, bytes)
    && Covered(g.images, bytes)
  }

  lemma ClosureCostCovers(g: Graph, bytes: int)
    requires ClosureCost(g) <= bytes
    ensures GraphCovered(g, bytes)
  {
    hide Cost, Covered;
    CostCoversAll(g.lost, bytes);
    CostCoversAll(g.auction, bytes);
    CostCoversAll(g.artists, bytes);
    CostCoversAll(g.institutions, bytes);
    CostCoversAll(g.literature, bytes);
    CostCoversAll(g.platforms, bytes);
    CostCoversAll(g.auctioneers, bytes);
    CostCoversAll(g.experts, bytes);
    CostCoversAll(g.programs, bytes);
    CostCoversAll(g.locations, bytes);
    CostCoversAll(g.lostLinks, bytes);
    CostCoversAll(g.auctionLinks, bytes);
    CostCoversAll(g.images, bytes);
  }

  /** No row of a batch is loaded that its estimate does not cover. */
  lemma EstimateCoversEveryRow(src: Source, b: Batch)
    ensures var bytes := ClosureEstimate(src, b) - FIXED_OVERHEAD_BYTES;
            && (b.rows != [] ==> src.codec.rowsLength(b.rows) + |b.rows| * 256 <= bytes)
            && GraphCovered(ContentOf(src.snapshot, b).graph, bytes)
  {
    hide LoadGraph, GraphCovered, GraphHashes, MatchDict, ClosureCost;
    ClosureCostCovers(ContentOf(src.snapshot, b).graph, ClosureEstimate(src, b) - FIXED_OVERHEAD_BYTES);
  }

  // ------------------------------------------------------ Splitting loses nothing

  function SentRows(pages: seq<Page>): seq<Rec<Pair, Match>> {
    if pages == [] then [] else pages[0].batch.rows + SentRows(pages[1..])
  }

  function SentExtras(pages: seq<Page>): seq<Entity> {
    if pages == [] then [] else pages[0].batch.extras + SentExtras(pages[1..])
  }

  /** The bytes of the pages, as debited to the workspace. */
  function SpooledBytes(pages: seq<Page>): nat {
    if pages == [] then 0 else pages[0].length + SpooledBytes(pages[1..])
  }

  lemma {:induction false} SentAppend(a: seq<Page>, b: seq<Page>)
    ensures SpooledBytes(a + b) == SpooledBytes(a) + SpooledBytes(b)
    ensures SentRows(a + b) == SentRows(a) + SentRows(b)
    ensures SentExtras(a + b) == SentExtras(a) + SentExtras(b)
  {
    if a == [] {
      assert a + b == b;
    } else {
      assert (a + b)[1..] == a[1..] + b;
      SentAppend(a[1..], b);
    }
  }

  /** Splitting keeps every item exactly when the batch is not mixed and is not one lone row. */
  lemma SplitKeepsItems(b: Batch)
    ensures (var (left, right) := Halves(b); left.rows + right.rows == b.rows && left.extras + right.extras == b.extras)
      <==> Unmixed(b) && |b.rows| != 1
  {
  }

  /** The halves differ by one item at most. */
  lemma HalvesAreEven(b: Batch)
    requires Unmixed(b)
    ensures var (left, right) := Halves(b); ItemCount(left) <= ItemCount(right) <= ItemCount(left) + 1
  {
  }

  /** One page's size limit: the target for several items, the hard limit for one. */
  predicate PageFits(src: Source, b: Batch) {
    var content := ContentOf(src.snapshot, b);
    && src.codec.contentLength(content) <= (if |b.rows| + |b.extras| > 1 then TARGET_BYTES else HARD_LIMIT)
    && src.codec.contentGzip(content) <= GZIP_LIMIT
  }

  predicate ClosureFits(src: Source, b: Batch, limit: nat) {
    ClosureEstimate(src, b) <= limit
  }

  /** What becomes of a batch, exactly: it is split, or given up, only when it does not fit. */
  lemma AttemptsExactly(src: Source, w: Workspace, b: Batch, e: Expected)
    ensures var limit := NextPageLimit(w, src.free, if |b.rows| + |b.extras| > 1 then TARGET_BYTES else HARD_LIMIT).1;
            var several, attempt := |b.rows| + |b.extras| > 1, TryContent(src, w, b, e).1;
            var verified := Verified(src.catalog, ContentOf(src.snapshot, b).hashes, e);
            && (attempt.Emit? <==> limit.Ok? && ClosureFits(src, b, limit.value) && verified && PageFits(src, b))
            && (attempt.Split? <==> limit.Ok? && several && (ClosureFits(src, b, limit.value) ==> verified && !PageFits(src, b)))
            && (attempt == Stop(SnapshotChanged) <==> limit.Ok? && ClosureFits(src, b, limit.value) && !verified)
            && (attempt == Stop(UnsendableClosure) <==>
                  limit.Ok? && !several && (ClosureFits(src, b, limit.value) ==> verified && !PageFits(src, b)))
            && (attempt == Stop(WorkspaceLimit) <==> limit.Err?)
  {
    hide ContentOf, ClosureEstimate, Verified;
  }

  /** A verified batch that fits stays whole: one page with all its items, if the workspace takes it. */
  lemma FittingBatchIsOnePage(src: Source, w: Workspace, b: Batch, e: Expected)
    requires Verified(src.catalog, ContentOf(src.snapshot, b).hashes, e) && PageFits(src, b)
    requires var limit := NextPageLimit(w, src.free, if |b.rows| + |b.extras| > 1 then TARGET_BYTES else HARD_LIMIT).1;
             limit.Ok? && ClosureFits(src, b, limit.value)
    ensures var r := SpoolContent(src, w, b, e);
            && (r.error.None? ==> |r.pages| == 1 && r.pages[0].batch == b)
            && (r.error.Some? ==> r.error == Some(WorkspaceLimit) && r.pages == [])
  {
    hide ContentOf, ClosureEstimate, Verified;
    AttemptsExactly(src, w, b, e);
  }

  /** `e` names the endpoints of its matches and the batch's own artworks. */
  ghost predicate Coherent(b: Batch, e: Expected) {
    && e.lost == (set p | p in e.matches :: p.lost) + LostOf(b.extras)
    && e.auction == (set p | p in e.matches :: p.auction) + AuctionOf(b.extras)
  }

  lemma SelfCoherent(b: Batch)
    ensures Coherent(b, ExpectedOf(b))
  {
  }

  /** What holds of every page that reaches the spool. */
  ghost predicate GoodPage(src: Source, p: Page) {
    && Unmixed(p.batch)
    && p.content == ContentOf(src.snapshot, p.batch)
    && p.length == src.codec.contentLength(p.content)
    && Verified(src.catalog, p.content.hashes, ExpectedOf(p.batch))
  }

  /** No page is empty; hard limits for every page, the 4 MiB target for pages of several items. */
  ghost predicate WithinLimits(src: Source, p: Page) {
    && ItemCount(p.batch) > 0
    && p.length <= HARD_LIMIT
    && src.codec.contentGzip(p.content) <= GZIP_LIMIT
    && (ItemCount(p.batch) > 1 ==> p.length <= TARGET_BYTES)
  }

  ghost predicate RequestedItem(c: Catalog, e: Entity) {
    match e
    case LostEntity(id) => id in c.requestedLost
    case AuctionEntity(id) => id in c.requestedAuction
  }

  /** Rows of the snapshot and artworks, all of them requested. */
  ghost predicate RequestedBatch(src: Source, b: Batch) {
    && (forall x :: x in b.rows ==> x in src.snapshot.matches && x.key in src.catalog.requestedMatches)
    && (forall e :: e in b.extras ==> RequestedItem(src.catalog, e))
  }

  /** What is left for one page: of the workspace, and of the disk as the last probe found it. */
  function RoomLeft(w: Workspace, free: nat -> int): int {
    Min(HARD_LIMIT, Min(w.maxBytes - w.used, (if w.probes == 0 then 0 else free(w.probes - 1)) - MIN_FREE_BYTES))
  }

  /**
    A single requested item which does not fit one page: its rows or its closure
    exceed the room found by the last probe, made in this run and in the very
    state it ended with, or its page exceeds a hard limit. There was room for
    more than the fixed overhead.
  */
  ghost predicate Unsendable(src: Source, w: Workspace, work: Workspace, b: Batch) {
    && ItemCount(b) == 1
    && RequestedBatch(src, b)
    && w.probes + 2 <= work.probes && RoomLeft(work, src.free) > FIXED_OVERHEAD_BYTES
    && (|| ClosureEstimate(src, b) > RoomLeft(work, src.free)
        || FIXED_OVERHEAD_BYTES + Cost(b.rows) > RoomLeft(work, src.free)
        || src.codec.contentLength(ContentOf(src.snapshot, b)) > HARD_LIMIT
        || src.codec.contentGzip(ContentOf(src.snapshot, b)) > GZIP_LIMIT)
  }

  /** A lone item is limited by the room there is, and by nothing else. */
  lemma LoneItemLimit(w: Workspace, free: nat -> int)
    requires NextPageLimit(w, free, HARD_LIMIT).1.Ok?
    ensures var (w1, limit) := NextPageLimit(w, free, HARD_LIMIT);
            FIXED_OVERHEAD_BYTES < limit.value == RoomLeft(w1, free) && w1.probes == w.probes + 2
  {
  }

  lemma LoneItemUnsendable(src: Source, w: Workspace, b: Batch, estimate: nat)
    requires ItemCount(b) == 1 && RequestedBatch(src, b)
    requires estimate == ClosureEstimate(src, b) || estimate == FIXED_OVERHEAD_BYTES + Cost(b.rows)
    requires var limit := NextPageLimit(w, src.free, HARD_LIMIT).1; limit.Ok? && estimate > limit.value
    ensures Unsendable(src, w, NextPageLimit(w, src.free, HARD_LIMIT).0, b)
  {
    hide ClosureEstimate, RequestedBatch, ContentOf, Cost;
    LoneItemLimit(w, src.free);
  }

  /** Nothing loads nothing, which always fits. */
  lemma NothingFits(src: Source)
    ensures ClosureEstimate(src, Batch([], [])) == FIXED_OVERHEAD_BYTES
    ensures FIXED_OVERHEAD_BYTES + Cost<Pair, Match>([]) == FIXED_OVERHEAD_BYTES
  {
    assert LostOf([]) == {} && AuctionOf([]) == {};
    NothingLoads(src.snapshot);
    hide LoadGraph;
  }

  lemma NothingLoads(s: Snapshot)
    ensures LoadGraph(s, [], {}, {}) == Graph([], [], [], [], [], [], [], [], [], [], [], [], [])
  {
    hide Visible, Select, Values, LocationIds, ArtistIds, ProgramIds, ImageIds, LostIds, AuctionIds;
    var v := Visible(s);
    NothingRefersTo();
    SelectNone(v.lost, {});
    SelectNone(v.auction, {});
    SelectNone(v.lostLinks, {});
    SelectNone(v.auctionLinks, {});
    SelectNone(v.artists, {});
    SelectNone(v.literature, {});
    SelectNone(v.institutions, {});
    SelectNone(v.platforms, {});
    SelectNone(v.auctioneers, {});
    SelectNone(v.experts, {});
    SelectNone(v.programs, {});
    SelectNone(v.locations, {});
    SelectNone(v.images, {});
  }

  lemma NothingRefersTo()
    ensures LostIds([]) + {} == {} && AuctionIds([]) + {} == {} && ProgramIds([]) == {}
    ensures ArtistIds([], []) == {} && LocationIds([], [], []) == {} && ImageIds([], [], []) == {}
    ensures forall column: Lost -> Option<Id> :: Values([], column) == {}
    ensures forall column: Auction -> Option<Id> :: Values([], column) == {}
  {
  }

  ghost predicate SpooledWell(src: Source, w: Workspace, r: Spooled) {
    && (forall p :: p in r.pages ==> GoodPage(src, p))
    && r.work.pageCount == w.pageCount + |r.pages|
    && r.work.used == w.used + SpooledBytes(r.pages)
    && r.work.maxPages == w.maxPages && r.work.maxBytes == w.maxBytes && w.probes <= r.work.probes
    && (r.pages != [] ==> r.work.pageCount <= r.work.maxPages)
    && (r.error.Some? ==> r.error.value in {WorkspaceLimit, UnsendableClosure, SnapshotChanged})
    && (r.error == Some(UnsendableClosure) ==> exists b :: Unsendable(src, w, r.work, b))
  }

  ghost predicate PhaseSpooledWell(src: Source, w: Workspace, r: Spooled) {
    SpooledWell(src, w, r) && forall p :: p in r.pages ==> WithinLimits(src, p)
  }

  lemma UnsendableFromEarlier(src: Source, w: Workspace, later: Workspace, work: Workspace, b: Batch)
    requires Unsendable(src, later, work, b) && w.probes <= later.probes
    ensures Unsendable(src, w, work, b)
  {
  }

  /** A probe more before the run changes nothing of it. */
  lemma WellFromEarlier(src: Source, w: Workspace, later: Workspace, r: Spooled)
    requires PhaseSpooledWell(src, later, r) && later == w.(probes := later.probes) && w.probes <= later.probes
    ensures PhaseSpooledWell(src, w, r)
  {
    hide Unsendable, GoodPage, WithinLimits;
    if r.error == Some(UnsendableClosure) {
      var b :| Unsendable(src, later, r.work, b);
      UnsendableFromEarlier(src, w, later, r.work, b);
    }
  }

  /** One run after another. */
  lemma WellTogether(src: Source, w: Workspace, first: Spooled, second: Spooled)
    requires PhaseSpooledWell(src, w, first) && first.error.None?
    requires PhaseSpooledWell(src, first.work, second)
    ensures PhaseSpooledWell(src, w, Spooled(second.work, first.pages + second.pages, second.error))
    ensures SentRows(first.pages + second.pages) == SentRows(first.pages) + SentRows(second.pages)
    ensures SentExtras(first.pages + second.pages) == SentExtras(first.pages) + SentExtras(second.pages)
  {
    hide Unsendable, GoodPage, WithinLimits;
    SentAppend(first.pages, second.pages);
    hide SpooledBytes, SentRows, SentExtras;
    if second.error == Some(UnsendableClosure) {
      var b :| Unsendable(src, first.work, second.work, b);
      UnsendableFromEarlier(src, w, first.work, second.work, b);
    }
  }

  lemma PageWell(src: Source, w: Workspace, page: Page, r: Spooled)
    requires GoodPage(src, page) && WithinLimits(src, page)
    requires var (w2, failed) := ReservePage(w, src.free, page.length);
             r == Spooled(w2, if failed.None? then [page] else [], failed)
    ensures PhaseSpooledWell(src, w, r)
    ensures r.error.None? ==> SentRows(r.pages) == page.batch.rows && SentExtras(r.pages) == page.batch.extras
  {
    hide GoodPage, WithinLimits, Unsendable;
    if r.error.None? {
      assert r.pages == [page] && r.pages[1..] == [];
      assert SpooledBytes(r.pages) == page.length;
    }
  }

  lemma {:induction false} ContentSpooledWell(src: Source, w: Workspace, b: Batch, e: Expected)
    requires Unmixed(b) && Coherent(b, e) && RequestedBatch(src, b)
    requires ItemCount(b) == 0 ==> e.matches != {}
    ensures var r := SpoolContent(src, w, b, e);
            && PhaseSpooledWell(src, w, r)
            && (r.error.None? ==> SentRows(r.pages) == b.rows && SentExtras(r.pages) == b.extras)
    decreases ItemCount(b), 1
  {
    hide SplitContent, NextPageLimit, ContentOf, RequestedBatch, ClosureEstimate, PhaseSpooledWell, ReservePage, Coherent;
    var (w1, attempt) := TryContent(src, w, b, e);
    match attempt {
      case Stop(error) => StoppedWell(src, w, b, e);
      case Split =>
        TryKeepsCounters(src, w, b, e);
        SplitSpooledWell(src, w1, b);
        WellFromEarlier(src, w, w1, SplitContent(src, w1, b));
      case Emit(page) =>
        TryKeepsCounters(src, w, b, e);
        EmittedPageIsGood(src, w, b, e);
        PageWell(src, w1, page, SpoolContent(src, w, b, e));
        WellFromEarlier(src, w, w1, SpoolContent(src, w, b, e));
    }
  }

  lemma TryKeepsCounters(src: Source, w: Workspace, b: Batch, e: Expected)
    ensures var w1 := TryContent(src, w, b, e).0; w1 == w.(probes := w1.probes) && w.probes <= w1.probes
  {
  }

  lemma StoppedWell(src: Source, w: Workspace, b: Batch, e: Expected)
    requires RequestedBatch(src, b) && (ItemCount(b) == 0 ==> e.matches != {})
    requires TryContent(src, w, b, e).1.Stop?
    ensures var (w1, attempt) := TryContent(src, w, b, e); PhaseSpooledWell(src, w, Spooled(w1, [], Some(attempt.error)))
  {
    hide RequestedBatch, LoadGraph, GraphHashes, ContentOf, ClosureEstimate, EnsurePageCapacity;
    var (w1, limit) := NextPageLimit(w, src.free, RequestedLimit(ItemCount(b)));
    var (work, attempt) := TryContent(src, w, b, e);
    if ItemCount(b) == 0 {
      assert b == Batch([], []);
      NothingFits(src);
      LoadedMatchKeys(src.snapshot, b);
    } else if attempt.error == UnsendableClosure {
      if ClosureEstimate(src, b) > limit.value {
        LoneItemUnsendable(src, w, b, ClosureEstimate(src, b));
      } else {
        assert ItemCount(b) == 1 by {
          HardLimitsAreAboveTarget(src, b, e, ContentOf(src.snapshot, b));
        }
        LoneItemLimit(w, src.free);
        assert Unsendable(src, w, work, b);
      }
    }
  }

  /** A batch of several items is split, never given up. */
  lemma HardLimitsAreAboveTarget(src: Source, b: Batch, e: Expected, content: Content)
    requires JudgeContent(src, b, e, content) == Stop(UnsendableClosure)
    ensures ItemCount(b) <= 1
    ensures src.codec.contentLength(content) > HARD_LIMIT || src.codec.contentGzip(content) > GZIP_LIMIT
  {
  }

  lemma EmittedPageIsGood(src: Source, w: Workspace, b: Batch, e: Expected)
    requires Unmixed(b) && Coherent(b, e) && TryContent(src, w, b, e).1.Emit?
    requires ItemCount(b) == 0 ==> e.matches != {}
    ensures var page := TryContent(src, w, b, e).1.page; page.batch == b && GoodPage(src, page) && WithinLimits(src, page)
  {
    hide LoadGraph, GraphHashes, ClosureEstimate, NextPageLimit, Agrees;
    SelfCoherent(b);
    LoadedMatchKeys(src.snapshot, b);
  }

  lemma LoadedMatchKeys(s: Snapshot, b: Batch)
    ensures ContentOf(s, b).hashes.matches.Keys == Keys(b.rows)
  {
  }

  lemma {:induction false} SplitSpooledWell(src: Source, w: Workspace, b: Batch)
    requires Unmixed(b) && ItemCount(b) > 1 && RequestedBatch(src, b)
    ensures var r := SplitContent(src, w, b);
            && PhaseSpooledWell(src, w, r)
            && (r.error.None? ==> SentRows(r.pages) == b.rows && SentExtras(r.pages) == b.extras)
    decreases ItemCount(b), 0
  {
    hide SpoolContent, RequestedBatch, PhaseSpooledWell, Coherent;
    var (left, right) := Halves(b);
    var first := SpoolContent(src, w, left, ExpectedOf(left));
    SplitKeepsItems(b);
    SelfCoherent(left);
    SelfCoherent(right);
    RequestedHalves(src, b);
    ContentSpooledWell(src, w, left, ExpectedOf(left));
    if first.error.None? {
      ContentSpooledWell(src, first.work, right, ExpectedOf(right));
      WellTogether(src, w, first, SpoolContent(src, first.work, right, ExpectedOf(right)));
    }
  }

  lemma RequestedHalves(src: Source, b: Batch)
    requires RequestedBatch(src, b) && Unmixed(b) && ItemCount(b) > 1
    ensures var (left, right) := Halves(b); RequestedBatch(src, left) && RequestedBatch(src, right)
  {
  }

  // ----------------------------------------------------------- Whole data phase

  /** The rows the second snapshot still has for `pairs`, in order. */
  function Present(s: Snapshot, pairs: set<Pair>): seq<Rec<Pair, Match>> {
    Select(s.matches, pairs)
  }

  lemma PresentSplit(s: Snapshot, pairs: seq<Pair>, middle: nat)
    requires InKeyOrder(s.matches) && Ordered(PairBefore, pairs) && middle <= |pairs|
    ensures Present(s, SetOf(pairs)) == Present(s, SetOf(pairs[..middle])) + Present(s, SetOf(pairs[middle..]))
  {
    var a, b := SetOf(pairs[..middle]), SetOf(pairs[middle..]);
    assert pairs == pairs[..middle] + pairs[middle..];
    assert SetOf(pairs) == a + b;
    forall x, y | x in a && y in b ensures PairBefore(x, y) {
      var i :| 0 <= i < middle && pairs[i] == x;
      var j :| middle <= j < |pairs| && pairs[j] == y;
    }
    forall i, j | 0 <= i < j < |s.matches| && s.matches[i].key in b ensures s.matches[j].key !in a {
      assert PairBefore(s.matches[i].key, s.matches[j].key);
    }
    SelectSplit(s.matches, a, b);
  }

  lemma {:induction false} PairsSpooledWell(src: Source, w: Workspace, pairs: seq<Pair>)
    requires InKeyOrder(src.snapshot.matches) && Ordered(PairBefore, pairs)
    requires SetOf(pairs) <= src.catalog.requestedMatches
    ensures var r := SpoolPairs(src, w, pairs);
            && PhaseSpooledWell(src, w, r)
            && (r.error.None? ==> SentRows(r.pages) == Present(src.snapshot, SetOf(pairs)) && SentExtras(r.pages) == [])
    decreases |pairs|, 1
  {
    hide Unsendable, PhaseSpooledWell, InKeyOrder, SpoolContent, SplitPairs, Cost, NextPageLimit, SetOf;
    var rows := Select(src.snapshot.matches, SetOf(pairs));
    var (w1, limit) := NextPageLimit(w, src.free, RequestedLimit(|pairs|));
    if pairs == [] {
      NothingSpooledWell(src, w, w, None);
      NoPairsNoRows(src.snapshot);
    } else {
      LimitProbesOnly(w, src.free, RequestedLimit(|pairs|));
      if limit.Err? {
        NothingSpooledWell(src, w, w1, Some(limit.error));
      } else if FIXED_OVERHEAD_BYTES + Cost(rows) > limit.value {
        if |pairs| > 1 {
          SplitPairsSpooledWell(src, w1, pairs);
          WellFromEarlier(src, w, w1, SplitPairs(src, w1, pairs));
        } else {
          LonePairWell(src, w, pairs);
        }
      } else {
        PresentIsRequested(src, pairs);
        ContentSpooledWell(src, w1, Batch(rows, []), ExpectedOfPairs(SetOf(pairs)));
        WellFromEarlier(src, w, w1, SpoolContent(src, w1, Batch(rows, []), ExpectedOfPairs(SetOf(pairs))));
      }
    }
  }

  lemma NoPairsNoRows(s: Snapshot)
    ensures SetOf<Pair>([]) == {} && Present(s, SetOf([])) == []
  {
    SelectNone(s.matches, SetOf([]));
  }

  /** A run that wrote nothing and was not stopped by an item. */
  lemma NothingSpooledWell(src: Source, w: Workspace, w1: Workspace, error: Option<SyncError>)
    requires w1 == w.(probes := w1.probes) && w.probes <= w1.probes && error in {None, Some(WorkspaceLimit)}
    ensures PhaseSpooledWell(src, w, Spooled(w1, [], error))
    ensures SentRows([]) == [] && SentExtras([]) == []
  {
    hide Unsendable, GoodPage, WithinLimits;
  }

  lemma LimitProbesOnly(w: Workspace, free: nat -> int, requested: nat)
    ensures var (w1, limit) := NextPageLimit(w, free, requested);
            && w1 == w.(probes := w1.probes) && w.probes <= w1.probes
            && (limit.Err? ==> limit.error == WorkspaceLimit)
  {
  }

  lemma LonePairWell(src: Source, w: Workspace, pairs: seq<Pair>)
    requires |pairs| == 1 && InKeyOrder(src.snapshot.matches) && SetOf(pairs) <= src.catalog.requestedMatches
    requires var limit := NextPageLimit(w, src.free, RequestedLimit(1)).1;
             limit.Ok? && FIXED_OVERHEAD_BYTES + Cost(Select(src.snapshot.matches, SetOf(pairs))) > limit.value
    ensures PhaseSpooledWell(src, w, Spooled(NextPageLimit(w, src.free, RequestedLimit(1)).0, [], Some(UnsendableClosure)))
  {
    hide Unsendable, GoodPage, WithinLimits, InKeyOrder, Cost, EnsurePageCapacity;
    var rows := Select(src.snapshot.matches, SetOf(pairs));
    LoneRow(src.snapshot, pairs);
    NothingFits(src);
    LoneItemLimit(w, src.free);
    LimitProbesOnly(w, src.free, RequestedLimit(1));
    PresentIsRequested(src, pairs);
    LoneItemUnsendable(src, w, Batch(rows, []), FIXED_OVERHEAD_BYTES + Cost(rows));
    hide NextPageLimit;
  }

  /** The rows still there for requested pairs are a batch the spooler may be given. */
  lemma PresentIsRequested(src: Source, pairs: seq<Pair>)
    requires SetOf(pairs) <= src.catalog.requestedMatches && pairs != []
    ensures var b := Batch(Select(src.snapshot.matches, SetOf(pairs)), []);
            && Unmixed(b) && RequestedBatch(src, b) && Coherent(b, ExpectedOfPairs(SetOf(pairs)))
            && ExpectedOfPairs(SetOf(pairs)).matches != {}
  {
    assert pairs[0] in ExpectedOfPairs(SetOf(pairs)).matches;
  }

  lemma {:induction false} SplitPairsSpooledWell(src: Source, w: Workspace, pairs: seq<Pair>)
    requires InKeyOrder(src.snapshot.matches) && Ordered(PairBefore, pairs) && |pairs| > 1
    requires SetOf(pairs) <= src.catalog.requestedMatches
    ensures var r := SplitPairs(src, w, pairs);
            && PhaseSpooledWell(src, w, r)
            && (r.error.None? ==> SentRows(r.pages) == Present(src.snapshot, SetOf(pairs)) && SentExtras(r.pages) == [])
    decreases |pairs|, 0
  {
    hide PhaseSpooledWell, InKeyOrder, SpoolPairs, Present;
    var middle := |pairs| / 2;
    var first := SpoolPairs(src, w, pairs[..middle]);
    PresentSplit(src.snapshot, pairs, middle);
    PairsSpooledWell(src, w, pairs[..middle]);
    if first.error.None? {
      PairsSpooledWell(src, first.work, pairs[middle..]);
      WellTogether(src, w, first, SpoolPairs(src, first.work, pairs[middle..]));
    }
  }

  lemma LoneRow(s: Snapshot, pairs: seq<Pair>)
    requires InKeyOrder(s.matches) && |pairs| == 1
    ensures |Present(s, SetOf(pairs))| <= 1
  {
    var rows := Present(s, SetOf(pairs));
    InKeyOrderSelect(s.matches, SetOf(pairs));
    forall i | 0 <= i < |rows| ensures rows[i].key == pairs[0] {
      assert rows[i] in rows;
    }
    assert |rows| > 1 ==> PairBefore(rows[0].key, rows[1].key);
  }

  lemma {:induction false} InKeyOrderSelect(t: seq<Rec<Pair, Match>>, ids: set<Pair>)
    requires InKeyOrder(t)
    ensures InKeyOrder(Select(t, ids))
  {
    if t != [] {
      InKeyOrderSelect(t[1..], ids);
      var rest := Select(t[1..], ids);
      if t[0].key in ids {
        forall j | 0 <= j < |rest| ensures PairBefore(t[0].key, rest[j].key) {
          assert rest[j] in t[1..];
        }
      }
    }
  }

  lemma {:induction false} PairBatchesSpooledWell(src: Source, w: Workspace, batches: seq<seq<Pair>>)
    requires InKeyOrder(src.snapshot.matches) && Ordered(PairBefore, Flatten(batches))
    requires SetOf(Flatten(batches)) <= src.catalog.requestedMatches
    ensures var r := SpoolPairBatches(src, w, batches);
            && PhaseSpooledWell(src, w, r)
            && (r.error.None? ==>
                  SentRows(r.pages) == Present(src.snapshot, SetOf(Flatten(batches))) && SentExtras(r.pages) == [])
    decreases |batches|
  {
    hide Unsendable, GoodPage, WithinLimits, InKeyOrder, SpoolPairs;
    if batches == [] {
      SelectNone(src.snapshot.matches, SetOf(Flatten(batches)));
    } else {
      var all := Flatten(batches);
      assert all[..|batches[0]|] == batches[0] && all[|batches[0]|..] == Flatten(batches[1..]);
      var first := SpoolPairs(src, w, batches[0]);
      PresentSplit(src.snapshot, all, |batches[0]|);
      PairsSpooledWell(src, w, batches[0]);
      if first.error.None? {
        PairBatchesSpooledWell(src, first.work, batches[1..]);
        WellTogether(src, w, first, SpoolPairBatches(src, first.work, batches[1..]));
      }
    }
  }

  lemma {:induction false} ExtraBatchesSpooledWell(src: Source, w: Workspace, batches: seq<seq<Entity>>)
    requires forall e :: e in Flatten(batches) ==> RequestedItem(src.catalog, e)
    requires forall batch :: batch in batches ==> batch != []
    ensures var r := SpoolExtraBatches(src, w, batches);
            && PhaseSpooledWell(src, w, r)
            && (r.error.None? ==> SentRows(r.pages) == [] && SentExtras(r.pages) == Flatten(batches))
    decreases |batches|
  {
    hide Unsendable, GoodPage, WithinLimits, SpoolContent, Coherent, ExpectedOf;
    if batches != [] {
      var b := Batch([], batches[0]);
      var first := SpoolContent(src, w, b, ExpectedOf(b));
      assert batches[0] in batches;
      SelfCoherent(b);
      ContentSpooledWell(src, w, b, ExpectedOf(b));
      if first.error.None? {
        assert forall batch :: batch in batches[1..] ==> batch in batches;
        ExtraBatchesSpooledWell(src, first.work, batches[1..]);
        WellTogether(src, w, first, SpoolExtraBatches(src, first.work, batches[1..]));
      }
    }
  }

  lemma ArtworksSpooledWell(src: Source, w: Workspace)
    ensures var r := SpoolArtworks(src, w);
            && PhaseSpooledWell(src, w, r)
            && (r.error.None? ==>
                  && SentRows(r.pages) == []
                  && SentExtras(r.pages) == LostEntities(ExtraLost(src.catalog)) + AuctionEntities(ExtraAuction(src.catalog)))
  {
    hide PhaseSpooledWell, SpoolExtraBatches;
    var lostBatches := Chunks(LostEntities(ExtraLost(src.catalog)), DATA_MATCHES_PER_PAGE);
    var auctionBatches := Chunks(AuctionEntities(ExtraAuction(src.catalog)), DATA_MATCHES_PER_PAGE);
    ExtraBatchesSpooledWell(src, w, lostBatches);
    var lost := SpoolExtraBatches(src, w, lostBatches);
    if lost.error.None? {
      ExtraBatchesSpooledWell(src, lost.work, auctionBatches);
      WellTogether(src, w, lost, SpoolExtraBatches(src, lost.work, auctionBatches));
    }
  }

  lemma RequestedSpooledWell(src: Source, w: Workspace)
    requires InKeyOrder(src.snapshot.matches)
    ensures var r := SpoolRequested(src, w);
            && PhaseSpooledWell(src, w, r)
            && (r.error.None? ==>
                  && SentRows(r.pages) == Present(src.snapshot, src.catalog.requestedMatches)
                  && SentExtras(r.pages) == LostEntities(ExtraLost(src.catalog)) + AuctionEntities(ExtraAuction(src.catalog)))
  {
    hide PhaseSpooledWell, SpoolPairBatches, SpoolArtworks, InKeyOrder, Present;
    var pairs := Chunks(RequestedInOrder(src.catalog), DATA_MATCHES_PER_PAGE);
    assert SetOf(RequestedInOrder(src.catalog)) == src.catalog.requestedMatches;
    PairBatchesSpooledWell(src, w, pairs);
    var matched := SpoolPairBatches(src, w, pairs);
    if matched.error.None? {
      ArtworksSpooledWell(src, matched.work);
      WellTogether(src, w, matched, SpoolArtworks(src, matched.work));
    }
  }

  /** The data phase as a whole: what was sent, and that every page was verified. */
  lemma DataPhaseSpooledWell(src: Source, w: Workspace)
    requires InKeyOrder(src.snapshot.matches)
    ensures var r := SpoolAll(src, w);
            && SpooledWell(src, w, r)
            && (forall p :: p in r.pages && ItemCount(p.batch) > 0 ==> WithinLimits(src, p))
            && (|r.pages| > 1 ==> forall p :: p in r.pages ==> ItemCount(p.batch) > 0)
            && (r.error.None? ==>
                  && r.pages != []
                  && SentRows(r.pages) == Present(src.snapshot, src.catalog.requestedMatches)
                  && SentExtras(r.pages) == LostEntities(ExtraLost(src.catalog)) + AuctionEntities(ExtraAuction(src.catalog)))
  {
    hide SpoolRequested, Present, Coherent, ContentOf, RequestedBatch, Unsendable;
    RequestedSpooledWell(src, w);
    SelfCoherent(Batch([], []));
    LoadedMatchKeys(src.snapshot, Batch([], []));
    var requested := SpoolRequested(src, w);
    var r := SpoolAll(src, w);
    if requested.error.None? && requested.pages == [] && r.error.None? {
      assert r.pages[1..] == [];
    }
  }

  // --------------------------------------------------------- Exact delivery

  /** The artworks and matches hashed on the pages. */
  function PageLost(pages: seq<Page>): set<Id> {
    if pages == [] then {} else pages[0].content.hashes.lost.Keys + PageLost(pages[1..])
  }

  function PageAuction(pages: seq<Page>): set<Id> {
    if pages == [] then {} else pages[0].content.hashes.auction.Keys + PageAuction(pages[1..])
  }

  function PageMatches(pages: seq<Page>): set<Pair> {
    if pages == [] then {} else pages[0].content.hashes.matches.Keys + PageMatches(pages[1..])
  }

  lemma IdsAppend(a: seq<Rec<Pair, Match>>, b: seq<Rec<Pair, Match>>)
    ensures Keys(a + b) == Keys(a) + Keys(b)
    ensures LostIds(a + b) == LostIds(a) + LostIds(b)
    ensures AuctionIds(a + b) == AuctionIds(a) + AuctionIds(b)
  {
  }

  lemma ExtrasAppend(a: seq<Entity>, b: seq<Entity>)
    ensures LostOf(a + b) == LostOf(a) + LostOf(b)
    ensures AuctionOf(a + b) == AuctionOf(a) + AuctionOf(b)
  {
  }

  lemma {:induction false} PagesCarryBatches(src: Source, pages: seq<Page>)
    requires forall p :: p in pages ==> GoodPage(src, p)
    ensures PageMatches(pages) == Keys(SentRows(pages))
    ensures PageLost(pages) == LostIds(SentRows(pages)) + LostOf(SentExtras(pages))
    ensures PageAuction(pages) == AuctionIds(SentRows(pages)) + AuctionOf(SentExtras(pages))
  {
    hide ContentOf, ClosureEstimate, Agrees, Unmixed;
    if pages != [] {
      var p, rest := pages[0], pages[1..];
      assert forall q :: q in rest ==> q in pages;
      PagesCarryBatches(src, rest);
      assert GoodPage(src, p);
      IdsAppend(p.batch.rows, SentRows(rest));
      ExtrasAppend(p.batch.extras, SentExtras(rest));
    }
  }

  /** `pages` answer the request recorded in `c` as far as snapshot `s` can. */
  ghost predicate Exact(c: Catalog, s: Snapshot, pages: seq<Page>) {
    && InKeyOrder(SentRows(pages))
    && PageMatches(pages) == Keys(SentRows(pages)) == c.requestedMatches * Keys(s.matches)
    && PageLost(pages) <= c.requestedLost
    && PageAuction(pages) <= c.requestedAuction
    && (PageMatches(pages) == c.requestedMatches <==> c.requestedMatches <= Keys(s.matches))
    && (c.requestedMatches <= Keys(s.matches) ==>
          PageLost(pages) == c.requestedLost && PageAuction(pages) == c.requestedAuction)
  }

  /**
    Exact delivery. A finished data phase sends each requested match the second
    snapshot still has, once and in order, and nothing else; it sends exactly
    the request if and only if every requested pair is still there.
  */
  lemma ExactDelivery(src: Source, w: Workspace)
    requires InKeyOrder(src.snapshot.matches) && CatalogInvariant(src.catalog)
    ensures SpoolAll(src, w).error.None? ==> Exact(src.catalog, src.snapshot, SpoolAll(src, w).pages)
  {
    hide SpoolAll, Exact, GoodPage, WithinLimits, Unsendable, InKeyOrder;
    DataPhaseSpooledWell(src, w);
    var r := SpoolAll(src, w);
    if r.error.None? {
      PagesCarryBatches(src, r.pages);
      ExactFromSent(src.catalog, src.snapshot, r.pages);
    }
  }

  lemma ExactFromSent(c: Catalog, s: Snapshot, pages: seq<Page>)
    requires InKeyOrder(s.matches) && CatalogInvariant(c)
    requires SentRows(pages) == Present(s, c.requestedMatches)
    requires SentExtras(pages) == LostEntities(ExtraLost(c)) + AuctionEntities(ExtraAuction(c))
    requires PageMatches(pages) == Keys(SentRows(pages))
    requires PageLost(pages) == LostIds(SentRows(pages)) + LostOf(SentExtras(pages))
    requires PageAuction(pages) == AuctionIds(SentRows(pages)) + AuctionOf(SentExtras(pages))
    ensures Exact(c, s, pages)
  {
    hide SentRows, SentExtras, PageMatches, PageLost, PageAuction, CatalogInvariant, ExtraLost, ExtraAuction, LostOf, AuctionOf;
    InKeyOrderSelect(s.matches, c.requestedMatches);
    SelectKeys(s.matches, c.requestedMatches);
    ExtraIds(ExtraLost(c), ExtraAuction(c));
    SentWithinRequest(c, SentRows(pages));
    if c.requestedMatches <= Keys(s.matches) {
      assert Keys(SentRows(pages)) == c.requestedMatches;
      SentCoversRequest(c, SentRows(pages));
    }
  }

  lemma SentWithinRequest(c: Catalog, rows: seq<Rec<Pair, Match>>)
    requires CatalogInvariant(c) && Keys(rows) <= c.requestedMatches
    ensures LostIds(rows) + SetOf(ExtraLost(c)) <= c.requestedLost
    ensures AuctionIds(rows) + SetOf(ExtraAuction(c)) <= c.requestedAuction
  {
  }

  lemma SentCoversRequest(c: Catalog, rows: seq<Rec<Pair, Match>>)
    requires Keys(rows) == c.requestedMatches
    ensures c.requestedLost <= LostIds(rows) + SetOf(ExtraLost(c))
    ensures c.requestedAuction <= AuctionIds(rows) + SetOf(ExtraAuction(c))
  {
  }

  lemma ExtraIds(lost: seq<Id>, auction: seq<Id>)
    ensures LostOf(LostEntities(lost) + AuctionEntities(auction)) == SetOf(lost)
    ensures AuctionOf(LostEntities(lost) + AuctionEntities(auction)) == SetOf(auction)
  {
    var all := LostEntities(lost) + AuctionEntities(auction);
    forall id | id in lost ensures id in LostOf(all) {
      var i :| 0 <= i < |lost| && lost[i] == id;
      assert all[i] == LostEntity(id);
    }
    forall id | id in auction ensures id in AuctionOf(all) {
      var i :| 0 <= i < |auction| && auction[i] == id;
      assert all[|lost| + i] == AuctionEntity(id);
    }
    forall id | id in LostOf(all) ensures id in lost {
      var i :| 0 <= i < |all| && all[i] == LostEntity(id);
    }
    forall id | id in AuctionOf(all) ensures id in auction {
      var i :| 0 <= i < |all| && all[i] == AuctionEntity(id);
    }
  }

  // ------------------------------------------------------ When a loss is reported

  /**
    A loaded batch whose rows are not the expected ones is reported exactly if it
    was loaded at all. Over the limit it is split, and what was expected of it is
    forgotten; a lone row over the limit is given up as unsendable.
  */
  lemma VanishedRowsReportedExactly(src: Source, w: Workspace, b: Batch, e: Expected)
    requires Keys(b.rows) != e.matches
    requires NextPageLimit(w, src.free, RequestedLimit(ItemCount(b))).1.Ok?
    ensures var (w1, limit) := NextPageLimit(w, src.free, RequestedLimit(ItemCount(b)));
            && (TryContent(src, w, b, e).1 == Stop(SnapshotChanged) <==> ClosureEstimate(src, b) <= limit.value)
            && SpoolContent(src, w, b, e)
               == (if ClosureEstimate(src, b) <= limit.value then Spooled(w1, [], Some(SnapshotChanged))
                   else if ItemCount(b) > 1 then SplitContent(src, w1, b)
                   else Spooled(w1, [], Some(UnsendableClosure)))
  {
    hide LoadGraph, GraphHashes, NextPageLimit, ClosureEstimate, ContentOf;
    LoadedMatchKeys(src.snapshot, b);
  }

  /** The rows still there of `pairs`, as one batch. */
  function RemainingBatch(src: Source, pairs: seq<Pair>): Batch {
    Batch(Present(src.snapshot, SetOf(pairs)), [])
  }

  /** The two limits a fetched batch of pairs meets: for its rows, and for their closure. */
  function FetchLimit(src: Source, w: Workspace, pairs: seq<Pair>): (Workspace, Result<nat, SyncError>) {
    NextPageLimit(w, src.free, RequestedLimit(|pairs|))
  }

  function ClosureLimit(src: Source, w: Workspace, pairs: seq<Pair>): (Workspace, Result<nat, SyncError>) {
    NextPageLimit(FetchLimit(src, w, pairs).0, src.free, RequestedLimit(ItemCount(RemainingBatch(src, pairs))))
  }

  /** The match rows of `pairs` are fetched, and there is room to try their closure. */
  ghost predicate Fetched(src: Source, w: Workspace, pairs: seq<Pair>) {
    && pairs != []
    && FetchLimit(src, w, pairs).1.Ok?
    && FIXED_OVERHEAD_BYTES + Cost(RemainingBatch(src, pairs).rows) <= FetchLimit(src, w, pairs).1.value
    && ClosureLimit(src, w, pairs).1.Ok?
  }

  /**
    Requested pairs of which some have vanished, for any number of remaining rows
    and any encoding. The loss is reported exactly if the remaining rows' closure
    fits the limit. If it does not, the run goes on as if only the remaining pairs
    had been requested: it finishes without an error exactly if two or more rows
    are left and their split finishes, and then it sends just those rows.
  */
  lemma VanishedPairsReportedExactly(src: Source, w: Workspace, pairs: seq<Pair>)
    requires InKeyOrder(src.snapshot.matches) && Ordered(PairBefore, pairs)
    requires SetOf(pairs) <= src.catalog.requestedMatches
    requires Fetched(src, w, pairs) && !(SetOf(pairs) <= Keys(src.snapshot.matches))
    ensures var b, (w2, limit) := RemainingBatch(src, pairs), ClosureLimit(src, w, pairs);
            var r := SpoolPairs(src, w, pairs);
            && (ClosureEstimate(src, b) <= limit.value ==> r == Spooled(w2, [], Some(SnapshotChanged)))
            && (ClosureEstimate(src, b) > limit.value ==>
                  && r == SpoolContent(src, FetchLimit(src, w, pairs).0, b, ExpectedOf(b))
                  && r == if |b.rows| > 1 then SplitContent(src, w2, b) else Spooled(w2, [], Some(UnsendableClosure)))
            && (r.error.None? <==>
                  ClosureEstimate(src, b) > limit.value && |b.rows| > 1 && SplitContent(src, w2, b).error.None?)
            && (r.error.None? ==> SentRows(r.pages) == b.rows && SentExtras(r.pages) == [])
  {
    hide ClosureEstimate, NextPageLimit, SplitContent, SpoolContent, InKeyOrder, PhaseSpooledWell;
    var b, e := RemainingBatch(src, pairs), ExpectedOfPairs(SetOf(pairs));
    var w1 := FetchLimit(src, w, pairs).0;
    SelectKeys(src.snapshot.matches, SetOf(pairs));
    assert Keys(b.rows) != e.matches;
    VanishedRowsReportedExactly(src, w1, b, e);
    if ClosureEstimate(src, b) > ClosureLimit(src, w, pairs).1.value {
      OverLimit(src, w1, b, ExpectedOf(b));
    }
    PairsSpooledWell(src, w, pairs);
  }

  lemma OverLimit(src: Source, w: Workspace, b: Batch, e: Expected)
    requires NextPageLimit(w, src.free, RequestedLimit(ItemCount(b))).1.Ok?
    requires ClosureEstimate(src, b) > NextPageLimit(w, src.free, RequestedLimit(ItemCount(b))).1.value
    ensures var w1 := NextPageLimit(w, src.free, RequestedLimit(ItemCount(b))).0;
            SpoolContent(src, w, b, e)
            == if ItemCount(b) > 1 then SplitContent(src, w1, b) else Spooled(w1, [], Some(UnsendableClosure))
  {
  }

  // --------------------------------------------------- An unchanged database

  /** If nothing changed, a batch of advertised items always verifies. */
  lemma UnchangedContentVerifies(src: Source, b: Batch)
    requires ValidSnapshot(src.snapshot) && TrueHashes(src.snapshot, src.catalog.advertised)
    requires forall x :: x in b.rows ==> x in src.snapshot.matches
    requires var e := ExpectedOf(b);
             && e.matches <= src.catalog.advertised.matches.Keys
             && e.lost <= src.catalog.advertised.lost.Keys
             && e.auction <= src.catalog.advertised.auction.Keys
    ensures Verified(src.catalog, ContentOf(src.snapshot, b).hashes, ExpectedOf(b))
  {
    BatchIndependence(src.snapshot, b.rows, LostOf(b.extras), AuctionOf(b.extras));
    TrueHashesVerify(src.snapshot, src.catalog, ContentOf(src.snapshot, b).hashes, ExpectedOf(b));
  }

  lemma TrueHashesVerify(s: Snapshot, c: Catalog, h: Hashes, e: Expected)
    requires ValidSnapshot(s) && TrueHashes(s, c.advertised) && TrueHashes(s, h)
    requires e.matches <= c.advertised.matches.Keys && h.matches.Keys == e.matches
    requires e.lost <= c.advertised.lost.Keys && h.lost.Keys == Keys(s.graph.lost) * e.lost
    requires e.auction <= c.advertised.auction.Keys && h.auction.Keys == Keys(s.graph.auction) * e.auction
    ensures Verified(c, h, e)
  {
    hide TrueHashes, ValidSnapshot, Agrees;
    AdvertisedExist(s, c.advertised);
    AdvertisedAgree(s, c.advertised, h);
  }

  lemma AdvertisedExist(s: Snapshot, advertised: Hashes)
    requires TrueHashes(s, advertised)
    ensures advertised.lost.Keys <= Keys(s.graph.lost)
    ensures advertised.auction.Keys <= Keys(s.graph.auction)
    ensures advertised.matches.Keys <= Keys(s.matches)
  {
  }

  lemma AdvertisedAgree(s: Snapshot, advertised: Hashes, h: Hashes)
    requires ValidSnapshot(s) && TrueHashes(s, advertised) && TrueHashes(s, h)
    requires h.matches.Keys <= advertised.matches.Keys
    requires h.lost.Keys <= advertised.lost.Keys
    requires h.auction.Keys <= advertised.auction.Keys
    ensures Agrees(h.matches, advertised.matches) && Agrees(h.lost, advertised.lost) && Agrees(h.auction, advertised.auction)
  {
    TrueHashesAgree(s, h, advertised);
  }

  ghost predicate AdvertisedItems(src: Source, b: Batch) {
    && Unmixed(b)
    && (forall x :: x in b.rows ==> x in src.snapshot.matches)
    && ExpectedOf(b).matches <= src.catalog.advertised.matches.Keys
    && ExpectedOf(b).lost <= src.catalog.advertised.lost.Keys
    && ExpectedOf(b).auction <= src.catalog.advertised.auction.Keys
  }

  ghost predicate Unchanged(src: Source) {
    && ValidSnapshot(src.snapshot)
    && TrueHashes(src.snapshot, src.catalog.advertised)
    && EndpointsListed(src.catalog.advertised)
  }

  lemma AdvertisedHalves(src: Source, b: Batch)
    requires AdvertisedItems(src, b) && ItemCount(b) > 1
    ensures var (left, right) := Halves(b); AdvertisedItems(src, left) && AdvertisedItems(src, right)
  {
  }

  lemma UnchangedAttempt(src: Source, w: Workspace, b: Batch, e: Expected)
    requires Unchanged(src) && AdvertisedItems(src, b) && e == ExpectedOf(b)
    ensures TryContent(src, w, b, e).1 != Stop(SnapshotChanged)
  {
    UnchangedContentVerifies(src, b);
    UnchangedJudgement(src, b, e, ContentOf(src.snapshot, b));
  }

  lemma UnchangedJudgement(src: Source, b: Batch, e: Expected, content: Content)
    requires Verified(src.catalog, content.hashes, e)
    ensures JudgeContent(src, b, e, content) != Stop(SnapshotChanged)
  {
  }

  lemma {:induction false} UnchangedContent(src: Source, w: Workspace, b: Batch, e: Expected)
    requires Unchanged(src) && AdvertisedItems(src, b) && e == ExpectedOf(b)
    ensures SpoolContent(src, w, b, e).error != Some(SnapshotChanged)
    decreases ItemCount(b), 1
  {
    UnchangedAttempt(src, w, b, e);
    var (w1, attempt) := TryContent(src, w, b, e);
    if attempt.Split? {
      UnchangedSplit(src, w1, b);
    }
  }

  lemma {:induction false} UnchangedSplit(src: Source, w: Workspace, b: Batch)
    requires Unchanged(src) && AdvertisedItems(src, b) && ItemCount(b) > 1
    ensures SplitContent(src, w, b).error != Some(SnapshotChanged)
    decreases ItemCount(b), 0
  {
    var (left, right) := Halves(b);
    AdvertisedHalves(src, b);
    UnchangedContent(src, w, left, ExpectedOf(left));
    UnchangedContent(src, SpoolContent(src, w, left, ExpectedOf(left)).work, right, ExpectedOf(right));
  }

  lemma {:induction false} UnchangedPairs(src: Source, w: Workspace, pairs: seq<Pair>)
    requires Unchanged(src) && SetOf(pairs) <= src.catalog.advertised.matches.Keys
    ensures SpoolPairs(src, w, pairs).error != Some(SnapshotChanged)
    decreases |pairs|
  {
    var s, c := src.snapshot, src.catalog;
    var b := Batch(Present(s, SetOf(pairs)), []);
    AdvertisedExist(s, c.advertised);
    SelectKeys(s.matches, SetOf(pairs));
    assert Keys(b.rows) == SetOf(pairs);
    SelfCoherent(b);
    assert ExpectedOfPairs(SetOf(pairs)) == ExpectedOf(b);
    if pairs != [] {
      var (w1, limit) := NextPageLimit(w, src.free, RequestedLimit(|pairs|));
      UnchangedContent(src, w1, b, ExpectedOf(b));
      if |pairs| > 1 {
        var middle := |pairs| / 2;
        UnchangedPairs(src, w1, pairs[..middle]);
        UnchangedPairs(src, SpoolPairs(src, w1, pairs[..middle]).work, pairs[middle..]);
      }
    }
  }

  lemma {:induction false} UnchangedPairBatches(src: Source, w: Workspace, batches: seq<seq<Pair>>)
    requires Unchanged(src) && SetOf(Flatten(batches)) <= src.catalog.advertised.matches.Keys
    ensures SpoolPairBatches(src, w, batches).error != Some(SnapshotChanged)
    decreases |batches|
  {
    if batches != [] {
      assert forall p :: p in batches[0] || p in Flatten(batches[1..]) ==> p in Flatten(batches);
      UnchangedPairs(src, w, batches[0]);
      UnchangedPairBatches(src, SpoolPairs(src, w, batches[0]).work, batches[1..]);
    }
  }

  lemma {:induction false} UnchangedExtraBatches(src: Source, w: Workspace, batches: seq<seq<Entity>>)
    requires Unchanged(src)
    requires LostOf(Flatten(batches)) <= src.catalog.advertised.lost.Keys
    requires AuctionOf(Flatten(batches)) <= src.catalog.advertised.auction.Keys
    ensures SpoolExtraBatches(src, w, batches).error != Some(SnapshotChanged)
    decreases |batches|
  {
    if batches != [] {
      var b := Batch([], batches[0]);
      ExtrasAppend(batches[0], Flatten(batches[1..]));
      UnchangedContent(src, w, b, ExpectedOf(b));
      UnchangedExtraBatches(src, SpoolContent(src, w, b, ExpectedOf(b)).work, batches[1..]);
    }
  }

  lemma ExtrasAdvertised(c: Catalog)
    requires CatalogInvariant(c)
    ensures LostOf(LostEntities(ExtraLost(c))) <= c.advertised.lost.Keys
    ensures AuctionOf(LostEntities(ExtraLost(c))) == {}
    ensures AuctionOf(AuctionEntities(ExtraAuction(c))) <= c.advertised.auction.Keys
    ensures LostOf(AuctionEntities(ExtraAuction(c))) == {}
  {
  }

  lemma UnchangedArtworks(src: Source, w: Workspace)
    requires Unchanged(src) && CatalogInvariant(src.catalog)
    ensures SpoolArtworks(src, w).error != Some(SnapshotChanged)
  {
    var lost := Chunks(LostEntities(ExtraLost(src.catalog)), DATA_MATCHES_PER_PAGE);
    var auction := Chunks(AuctionEntities(ExtraAuction(src.catalog)), DATA_MATCHES_PER_PAGE);
    ExtrasAdvertised(src.catalog);
    UnchangedExtraBatches(src, w, lost);
    UnchangedExtraBatches(src, SpoolExtraBatches(src, w, lost).work, auction);
  }

  lemma UnchangedRequested(src: Source, w: Workspace)
    requires Unchanged(src) && CatalogInvariant(src.catalog)
    ensures SpoolRequested(src, w).error != Some(SnapshotChanged)
  {
    var pairs := Chunks(RequestedInOrder(src.catalog), DATA_MATCHES_PER_PAGE);
    assert SetOf(Flatten(pairs)) == src.catalog.requestedMatches;
    UnchangedPairBatches(src, w, pairs);
    UnchangedArtworks(src, SpoolPairBatches(src, w, pairs).work);
  }

  /** If the database did not change in between, the data phase never reports a changed snapshot. */
  lemma UnchangedDatabaseNeverRaises(src: Source, w: Workspace)
    requires Unchanged(src) && CatalogInvariant(src.catalog)
    ensures SpoolAll(src, w).error != Some(SnapshotChanged)
  {
    UnchangedRequested(src, w);
    UnchangedContentVerifies(src, Batch([], []));
  }
}
