/**
  The data spooler at work (telemetry/sync_data.py): it appends to one list of
  pages while it debits the workspace budget. Every method computes what the
  function of the same role in `SyncData` says.
*/
module SyncSpooler {
  import opened Artworks
  import opened Results
  import opened Tables
  import opened Sequences
  import opened SyncErrors
  import opened SyncBudget
  import opened SyncGraph
  import opened SyncCatalogs
  import opened SyncData

  class DataSpooler {
    const snapshot: Snapshot
    const codec: Codec
    const catalog: SyncCatalog
    const budget: WorkspaceBudget
    var pages: seq<Page>

    constructor (snapshot: Snapshot, codec: Codec, catalog: SyncCatalog, budget: WorkspaceBudget)
      ensures this.snapshot == snapshot && this.codec == codec && this.catalog == catalog && this.budget == budget
      ensures pages == []
    {
      this.snapshot, this.codec, this.catalog, this.budget := snapshot, codec, catalog, budget;
      pages := [];
    }

    ghost function Reads(): Source
      reads catalog
    {
      Source(snapshot, codec, catalog.View(), budget.disk.freeAt)
    }

    /** The run went from `was` with `had` pages to the present state, as `r` says. */
    ghost predicate Did(r: Spooled, had: seq<Page>, error: Option<SyncError>)
      reads this, budget, budget.disk
    {
      budget.View() == r.work && pages == had + r.pages && error == r.error
    }

    /** Loads one closure within `limit` bytes; `None` is the materialisation limit. */
    method LoadContent(b: Batch, limit: nat) returns (content: Option<Content>)
      requires limit > FIXED_OVERHEAD_BYTES
      ensures content.Some? <==> ClosureEstimate(Reads(), b) <= limit
      ensures content.Some? ==> content.value == ContentOf(snapshot, b)
    {
      var materialization := new MaterializationBudget(limit);
      if b.rows != [] {
        var fits := materialization.Reserve(codec.rowsLength(b.rows), |b.rows|);
        if !fits {
          return None;
        }
      }
      content := BuildDataContent(snapshot, b.rows, LostOf(b.extras), AuctionOf(b.extras), materialization);
    }

    method WritePage(page: Page) returns (error: Option<SyncError>)
      modifies this, budget`usedBytes, budget`pageCount, budget.disk`probes, budget.disk`inventory, budget.disk`data
      ensures (budget.View(), error) == ReservePage(old(budget.View()), budget.disk.freeAt, page.length)
      ensures pages == old(pages) + if error.None? then [page] else []
      ensures old(budget.Accounted()) ==> budget.Accounted()
      ensures budget.disk.inventory == old(budget.disk.inventory)
    {
      error := budget.WriteRawPage(DataDirectory, page.length);
      if error.None? {
        pages := pages + [page];
      }
    }

    method JudgeLoaded(b: Batch, expected: Expected, content: Content) returns (r: Attempt)
      ensures r == JudgeContent(Reads(), b, expected, content)
    {
      var failed := catalog.VerifyContent(content.hashes, expected);
      if failed.Some? {
        return Stop(failed.value);
      }
      var length, gzip := codec.contentLength(content), codec.contentGzip(content);
      if (length > TARGET_BYTES || gzip > GZIP_LIMIT) && ItemCount(b) > 1 {
        return Split;
      }
      if length > HARD_LIMIT || gzip > GZIP_LIMIT {
        return Stop(UnsendableClosure);
      }
      return Emit(Page(b, content, length));
    }

    method TryDataContent(b: Batch, expected: Expected) returns (r: Attempt)
      modifies budget.disk`probes
      ensures (budget.View(), r) == TryContent(Reads(), old(budget.View()), b, expected)
      ensures old(budget.Accounted()) ==> budget.Accounted()
    {
      var limit := budget.NextPageMaterializationLimit(RequestedLimit(ItemCount(b)));
      if limit.Err? {
        return Stop(limit.error);
      }
      var content := LoadContent(b, limit.value);
      if content.None? {
        return if ItemCount(b) > 1 then Split else Stop(UnsendableClosure);
      }
      r := JudgeLoaded(b, expected, content.value);
    }

    method SpoolDataContent(b: Batch, expected: Expected) returns (error: Option<SyncError>)
      modifies this, budget`usedBytes, budget`pageCount, budget.disk`probes, budget.disk`inventory, budget.disk`data
      ensures Did(SpoolContent(Reads(), old(budget.View()), b, expected), old(pages), error)
      ensures old(budget.Accounted()) ==> budget.Accounted()
      ensures budget.disk.inventory == old(budget.disk.inventory)
      decreases ItemCount(b), 1
    {
      AppendEmpty(pages);
      var attempt := TryDataContent(b, expected);
      match attempt {
        case Stop(e) => error := Some(e);
        case Split => error := SplitDataContent(b);
        case Emit(page) => error := WritePage(page);
      }
    }

    method SplitDataContent(b: Batch) returns (error: Option<SyncError>)
      requires ItemCount(b) > 1
      modifies this, budget`usedBytes, budget`pageCount, budget.disk`probes, budget.disk`inventory, budget.disk`data
      ensures Did(SplitContent(Reads(), old(budget.View()), b), old(pages), error)
      ensures old(budget.Accounted()) ==> budget.Accounted()
      ensures budget.disk.inventory == old(budget.disk.inventory)
      decreases ItemCount(b), 0
    {
      var (left, right) := Halves(b);
      ghost var src, had := Reads(), pages;
      ghost var first := SpoolContent(src, budget.View(), left, ExpectedOf(left));
      error := SpoolDataContent(left, ExpectedOf(left));
      if error.None? {
        ghost var second := SpoolContent(src, budget.View(), right, ExpectedOf(right));
        error := SpoolDataContent(right, ExpectedOf(right));
        AppendAssociative(had, first.pages, second.pages);
      }
    }

    method SpoolRequestedMatchPairs(pairs: seq<Pair>) returns (error: Option<SyncError>)
      modifies this, budget`usedBytes, budget`pageCount, budget.disk`probes, budget.disk`inventory, budget.disk`data
      ensures Did(SpoolPairs(Reads(), old(budget.View()), pairs), old(pages), error)
      ensures old(budget.Accounted()) ==> budget.Accounted()
      ensures budget.disk.inventory == old(budget.disk.inventory)
      decreases |pairs|, 1
    {
      AppendEmpty(pages);
      if pairs == [] {
        return None;
      }
      var limit := budget.NextPageMaterializationLimit(RequestedLimit(|pairs|));
      if limit.Err? {
        return Some(limit.error);
      }
      var fetch := new MaterializationBudget(limit.value);
      var rows := Select(snapshot.matches, SetOf(pairs));
      var fits := fetch.Reserve(TotalBytes(rows), |rows|);
      if !fits {
        if |pairs| == 1 {
          return Some(UnsendableClosure);
        }
        error := SpoolPairHalves(pairs);
        return;
      }
      error := SpoolDataContent(Batch(rows, []), ExpectedOfPairs(SetOf(pairs)));
    }

    method SpoolPairHalves(pairs: seq<Pair>) returns (error: Option<SyncError>)
      requires |pairs| > 1
      modifies this, budget`usedBytes, budget`pageCount, budget.disk`probes, budget.disk`inventory, budget.disk`data
      ensures Did(SplitPairs(Reads(), old(budget.View()), pairs), old(pages), error)
      ensures old(budget.Accounted()) ==> budget.Accounted()
      ensures budget.disk.inventory == old(budget.disk.inventory)
      decreases |pairs|, 0
    {
      var middle := |pairs| / 2;
      ghost var src, had := Reads(), pages;
      ghost var first := SpoolPairs(src, budget.View(), pairs[..middle]);
      error := SpoolRequestedMatchPairs(pairs[..middle]);
      if error.None? {
        ghost var second := SpoolPairs(src, budget.View(), pairs[middle..]);
        error := SpoolRequestedMatchPairs(pairs[middle..]);
        AppendAssociative(had, first.pages, second.pages);
      }
    }

    method SpoolMatchBatches(batches: seq<seq<Pair>>) returns (error: Option<SyncError>)
      modifies this, budget`usedBytes, budget`pageCount, budget.disk`probes, budget.disk`inventory, budget.disk`data
      ensures Did(SpoolPairBatches(Reads(), old(budget.View()), batches), old(pages), error)
      ensures old(budget.Accounted()) ==> budget.Accounted()
      ensures budget.disk.inventory == old(budget.disk.inventory)
    {
      ghost var src, had := Reads(), pages;
      ghost var all := SpoolPairBatches(src, budget.View(), batches);
      error := None;
      for i := 0 to |batches|
        invariant error.None? && Reads() == src
        invariant var rest := SpoolPairBatches(src, budget.View(), batches[i..]);
                  all.work == rest.work && all.error == rest.error && had + all.pages == pages + rest.pages
        invariant old(budget.Accounted()) ==> budget.Accounted()
        invariant budget.disk.inventory == old(budget.disk.inventory)
      {
        ghost var done := pages;
        ghost var first := SpoolPairs(src, budget.View(), batches[i]);
        assert batches[i..][1..] == batches[i + 1..];
        AppendAssociative(done, first.pages, SpoolPairBatches(src, first.work, batches[i + 1..]).pages);
        error := SpoolRequestedMatchPairs(batches[i]);
        if error.Some? {
          return;
        }
      }
      AppendEmpty(pages);
    }

    method SpoolArtworkBatches(batches: seq<seq<Entity>>) returns (error: Option<SyncError>)
      modifies this, budget`usedBytes, budget`pageCount, budget.disk`probes, budget.disk`inventory, budget.disk`data
      ensures Did(SpoolExtraBatches(Reads(), old(budget.View()), batches), old(pages), error)
      ensures old(budget.Accounted()) ==> budget.Accounted()
      ensures budget.disk.inventory == old(budget.disk.inventory)
    {
      ghost var src, had := Reads(), pages;
      ghost var all := SpoolExtraBatches(src, budget.View(), batches);
      error := None;
      for i := 0 to |batches|
        invariant error.None? && Reads() == src
        invariant var rest := SpoolExtraBatches(src, budget.View(), batches[i..]);
                  all.work == rest.work && all.error == rest.error && had + all.pages == pages + rest.pages
        invariant old(budget.Accounted()) ==> budget.Accounted()
        invariant budget.disk.inventory == old(budget.disk.inventory)
      {
        var b := Batch([], batches[i]);
        ghost var done := pages;
        ghost var first := SpoolContent(src, budget.View(), b, ExpectedOf(b));
        assert batches[i..][1..] == batches[i + 1..];
        AppendAssociative(done, first.pages, SpoolExtraBatches(src, first.work, batches[i + 1..]).pages);
        error := SpoolDataContent(b, ExpectedOf(b));
        if error.Some? {
          return;
        }
      }
      AppendEmpty(pages);
    }

    method SpoolPageOfNothing() returns (error: Option<SyncError>)
      modifies this, budget`usedBytes, budget`pageCount, budget.disk`probes, budget.disk`inventory, budget.disk`data
      ensures Did(SpoolEmptyPage(Reads(), old(budget.View())), old(pages), error)
      ensures old(budget.Accounted()) ==> budget.Accounted()
      ensures budget.disk.inventory == old(budget.disk.inventory)
    {
      hide EnsurePageCapacity, ContentOf, Verified, ExpectedOf, NextPageLimit;
      AppendEmpty(pages);
      error := budget.EnsureCapacity(0);
      if error.Some? {
        return;
      }
      var b := Batch([], []);
      var content := ContentOf(snapshot, b);
      error := catalog.VerifyContent(content.hashes, ExpectedOf(b));
      if error.Some? {
        return;
      }
      error := WritePage(Page(b, content, codec.contentLength(content)));
    }

    /** `_spool_data_pages`: requested matches, then the remaining lost and auction artworks. */
    method SpoolDataPages() returns (error: Option<SyncError>)
      requires pages == []
      modifies this, budget`usedBytes, budget`pageCount, budget.disk`probes, budget.disk`inventory, budget.disk`data
      ensures Did(SpoolAll(Reads(), old(budget.View())), [], error)
      ensures old(budget.Accounted()) ==> budget.Accounted()
      ensures budget.disk.inventory == old(budget.disk.inventory)
    {
      ghost var requested := SpoolRequested(Reads(), budget.View());
      AppendEmpty(requested.pages);
      error := SpoolRequestedPages();
      if error.None? && pages == [] {
        error := SpoolPageOfNothing();
      }
    }

    method SpoolRequestedPages() returns (error: Option<SyncError>)
      modifies this, budget`usedBytes, budget`pageCount, budget.disk`probes, budget.disk`inventory, budget.disk`data
      ensures Did(SpoolRequested(Reads(), old(budget.View())), old(pages), error)
      ensures old(budget.Accounted()) ==> budget.Accounted()
      ensures budget.disk.inventory == old(budget.disk.inventory)
    {
      hide SpoolPairBatches, SpoolArtworks;
      ghost var src, had := Reads(), pages;
      var matches := catalog.IterRequestedMatches(DATA_MATCHES_PER_PAGE);
      ghost var first := SpoolPairBatches(src, budget.View(), matches);
      error := SpoolMatchBatches(matches);
      if error.None? {
        ghost var second := SpoolArtworks(src, budget.View());
        error := SpoolArtworkPages();
        AppendAssociative(had, first.pages, second.pages);
      }
    }

    method SpoolArtworkPages() returns (error: Option<SyncError>)
      modifies this, budget`usedBytes, budget`pageCount, budget.disk`probes, budget.disk`inventory, budget.disk`data
      ensures Did(SpoolArtworks(Reads(), old(budget.View())), old(pages), error)
      ensures old(budget.Accounted()) ==> budget.Accounted()
      ensures budget.disk.inventory == old(budget.disk.inventory)
    {
      ghost var src, had := Reads(), pages;
      var lost := catalog.IterExtraLost(DATA_MATCHES_PER_PAGE);
      ghost var first := SpoolExtraBatches(src, budget.View(), lost);
      error := SpoolArtworkBatches(lost);
      if error.None? {
        var auction := catalog.IterExtraAuction(DATA_MATCHES_PER_PAGE);
        ghost var second := SpoolExtraBatches(src, budget.View(), auction);
        error := SpoolArtworkBatches(auction);
        AppendAssociative(had, first.pages, second.pages);
      }
    }
  }
}
