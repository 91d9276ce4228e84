/**
  The whole operation (telemetry/sync_delivery.py): two snapshots, two phases,
  one catalog, three budgets.
*/
module SyncDelivery {
  import opened Artworks
  import opened Results
  import opened Tables
  import opened Sequences
  import opened SyncErrors
  import opened SyncBudget
  import opened SyncGraph
  import opened SyncClosures
  import opened SyncCatalogs
  import opened SyncData
  import opened SyncSpooler
  import opened SyncInventory
  import opened SyncHttp
  import opened SyncChannel

  // ------------------------------------------------------- Two-snapshot soundness

  /** Every closure on the page is the one the snapshot `s` has under the same key. */
  ghost predicate ClosuresOf(s: Snapshot, content: Content) {
    && (forall x :: x in content.graph.lost ==> IsLostHash(s, x.key, LostDigest(LostClosureIn(content.graph, x))))
    && (forall x :: x in content.graph.auction ==> IsAuctionHash(s, x.key, AuctionDigest(AuctionClosureIn(content.graph, x))))
    && (forall k :: k in content.matches ==> IsMatchHash(s, k, MatchDigest(MatchClosureIn(content.graph, content.matches[k]))))
  }

  lemma {:induction false} LostHashOf(g: Graph, lost: seq<Rec<Id, Lost>>, x: Rec<Id, Lost>)
    requires UniqueKeys(lost) && x in lost
    ensures x.key in LostHashes(g, lost) && LostHashes(g, lost)[x.key] == LostDigest(LostClosureIn(g, x))
  {
    LostHashesAt(g, lost);
    assert x.key in Keys(lost);
    var y :| y in lost && y.key == x.key && LostHashes(g, lost)[x.key] == LostDigest(LostClosureIn(g, y));
    UniqueLookup(lost, x, y);
  }

  lemma {:induction false} AuctionHashOf(g: Graph, auction: seq<Rec<Id, Auction>>, x: Rec<Id, Auction>)
    requires UniqueKeys(auction) && x in auction
    ensures x.key in AuctionHashes(g, auction) && AuctionHashes(g, auction)[x.key] == AuctionDigest(AuctionClosureIn(g, x))
  {
    AuctionHashesAt(g, auction);
    assert x.key in Keys(auction);
    var y :| y in auction && y.key == x.key && AuctionHashes(g, auction)[x.key] == AuctionDigest(AuctionClosureIn(g, y));
    UniqueLookup(auction, x, y);
  }

  /**
    Two-snapshot soundness. Whatever happened to the database in between, a page
    that reached the spool carries, for each of its artworks and matches, exactly
    the closure the advertised snapshot had, however its batch was cut.
  */
  lemma TwoSnapshotSoundness(s1: Snapshot, src: Source, page: Page)
    requires TrueHashes(s1, src.catalog.advertised) && ValidSnapshot(src.snapshot)
    requires GoodPage(src, page)
    ensures ClosuresOf(s1, page.content) && CarriesRowsOf(s1, page.content) && CarriesItems(page)
  {
    hide CarriesItems, ContentOf, IsLostHash, IsAuctionHash, IsMatchHash, LostClosureIn, AuctionClosureIn, MatchClosureIn;
    var g := page.content.graph;
    ContentShape(src.snapshot, page.batch);
    VerifiedHashesAreTrue(s1, src.catalog, page.content.hashes, ExpectedOf(page.batch));
    forall x | x in g.lost ensures IsLostHash(s1, x.key, LostDigest(LostClosureIn(g, x))) {
      LostHashOf(g, g.lost, x);
    }
    forall k | k in page.content.matches
      ensures IsMatchHash(s1, k, MatchDigest(MatchClosureIn(g, page.content.matches[k])))
    {
      assert k in page.content.hashes.matches;
    }
    forall x | x in g.auction ensures IsAuctionHash(s1, x.key, AuctionDigest(AuctionClosureIn(g, x))) {
      AuctionHashOf(g, g.auction, x);
    }
    ClosuresCarryRows(s1, page.content);
    GoodPagesCarryItems(src, page);
  }

  /** Everything the page was cut for is on it: the scores with both their artworks, and the artworks of their own. */
  ghost predicate CarriesItems(page: Page) {
    && (forall x :: x in page.batch.rows ==>
          && x.key in page.content.matches
          && (exists l :: l in page.content.graph.lost && l.key == x.key.lost)
          && (exists a :: a in page.content.graph.auction && a.key == x.key.auction))
    && (forall id :: LostEntity(id) in page.batch.extras ==> exists l :: l in page.content.graph.lost && l.key == id)
    && (forall id :: AuctionEntity(id) in page.batch.extras ==> exists a :: a in page.content.graph.auction && a.key == id)
  }

  lemma GoodPagesCarryItems(src: Source, page: Page)
    requires GoodPage(src, page)
    ensures CarriesItems(page)
  {
    var c, e := page.content, ExpectedOf(page.batch);
    PageHashKeys(src.snapshot, page.batch);
    hide ContentOf;
    assert Keys(c.graph.lost) == e.lost && Keys(c.graph.auction) == e.auction && c.matches.Keys == e.matches;
    forall x | x in page.batch.rows
      ensures x.key in c.matches
      ensures exists l :: l in c.graph.lost && l.key == x.key.lost
      ensures exists a :: a in c.graph.auction && a.key == x.key.auction
    {
      assert x.key in Keys(page.batch.rows) && x.key.lost in LostIds(page.batch.rows);
      assert x.key.auction in AuctionIds(page.batch.rows);
      assert x.key.lost in Keys(c.graph.lost) && x.key.auction in Keys(c.graph.auction);
    }
    forall id | LostEntity(id) in page.batch.extras ensures exists l :: l in c.graph.lost && l.key == id {
      assert LostEntity(id).id in LostOf(page.batch.extras);
      assert id in Keys(c.graph.lost);
    }
    forall id | AuctionEntity(id) in page.batch.extras ensures exists a :: a in c.graph.auction && a.key == id {
      assert AuctionEntity(id).id in AuctionOf(page.batch.extras);
      assert id in Keys(c.graph.auction);
    }
  }

  lemma PageHashKeys(s: Snapshot, b: Batch)
    ensures var c := ContentOf(s, b);
            && c.hashes.matches.Keys == c.matches.Keys
            && c.hashes.lost.Keys == Keys(c.graph.lost) && c.hashes.auction.Keys == Keys(c.graph.auction)
  {
    var c := ContentOf(s, b);
    LostHashesAt(c.graph, c.graph.lost);
    AuctionHashesAt(c.graph, c.graph.auction);
    hide LoadGraph, LostHashes, AuctionHashes, MatchDict;
  }

  /** Equal digests are of equal rows, and of equal rows around them. */
  lemma ClosuresCarryRows(s: Snapshot, content: Content)
    requires ClosuresOf(s, content)
    ensures CarriesRowsOf(s, content)
  {
    hide LostClosureIn, AuctionClosureIn, MatchClosureIn, Visible, SameAroundLost, SameAroundAuction, SameAroundMatch;
    var g, v := content.graph, Visible(s);
    forall x | x in g.lost ensures x in s.graph.lost && SameAroundLost(g, v, x) {
      var y :| y in s.graph.lost && y.key == x.key && LostClosureIn(g, x) == LostClosureIn(v, y);
      LostClosureDetermines(g, v, x, y);
    }
    forall x | x in g.auction ensures x in s.graph.auction && SameAroundAuction(g, v, x) {
      var y :| y in s.graph.auction && y.key == x.key && AuctionClosureIn(g, x) == AuctionClosureIn(v, y);
      AuctionClosureDetermines(g, v, x, y);
    }
    forall k | k in content.matches
      ensures content.matches[k] in s.matches && SameAroundMatch(g, v, content.matches[k])
    {
      var y :| y in s.matches && y.key == k && MatchClosureIn(g, content.matches[k]) == MatchClosureIn(v, y);
      MatchClosureDetermines(g, v, content.matches[k], y);
    }
  }

  lemma ContentShape(s: Snapshot, b: Batch)
    requires ValidSnapshot(s)
    ensures var c := ContentOf(s, b);
            UniqueKeys(c.graph.lost) && UniqueKeys(c.graph.auction) && c.hashes == GraphHashes(c.graph, c.matches)
  {
    hide GraphHashes, UniqueKeys;
    SelectUnique(s.graph.lost, LostIds(b.rows) + LostOf(b.extras));
    SelectUnique(s.graph.auction, AuctionIds(b.rows) + AuctionOf(b.extras));
  }

  lemma VerifiedHashesAreTrue(s: Snapshot, c: Catalog, h: Hashes, e: Expected)
    requires TrueHashes(s, c.advertised) && Verified(c, h, e)
    ensures TrueHashes(s, h)
  {
  }

  // ------------------------------------------------------------- Inventory phase

  function InventoryPayloads(pages: seq<InventoryPage>): seq<Payload> {
    seq(|pages|, i requires 0 <= i < |pages| => InventoryPayload(pages[i].hashes))
  }

  function DataPayloads(pages: seq<Page>): seq<Payload> {
    seq(|pages|, i requires 0 <= i < |pages| => DataPayload(pages[i].content))
  }

  function InventoryEnvelope(job: Job, pages: seq<InventoryPage>, n: nat): Envelope
    requires n < |pages|
  {
    EnvelopeAt(job, InventoryPhase, InventoryPayloads(pages), n)
  }

  /** What the phases may fail with while they send. */
  predicate WireError(e: SyncError) {
    e in {WorkspaceLimit, Transport, ProtocolViolation, RejectedNeeded, AsyncApply} || e.HttpStatus?
  }

  /** Requests are checked against their own page, the last ones against the whole inventory. */
  function ScopeOf(pages: seq<InventoryPage>, n: nat): Option<Hashes>
    requires n < |pages|
  {
    if n == |pages| - 1 then None else Some(pages[n].hashes)
  }

  /** The catalog after the given acknowledgements, page after page. */
  function Requested(c: Catalog, pages: seq<InventoryPage>, acks: seq<Ack>): Result<Catalog, SyncError>
    requires |acks| <= |pages|
  {
    if acks == [] then Ok(c)
    else
      var n := |acks| - 1;
      match Requested(c, pages, acks[..n])
      case Err(e) => Err(e)
      case Ok(d) => RecordNeeded(d, acks[n].needed, ScopeOf(pages, n))
  }

  lemma OneMoreRequest(c: Catalog, pages: seq<InventoryPage>, acks: seq<Ack>, ack: Ack)
    requires |acks| < |pages|
    ensures Requested(c, pages, acks + [ack])
         == (match Requested(c, pages, acks)
             case Err(e) => Err(e)
             case Ok(d) => RecordNeeded(d, ack.needed, ScopeOf(pages, |acks|)))
  {
    assert (acks + [ack])[..|acks|] == acks;
  }

  /** `acks` are what the receiver acknowledged the first inventory pages with. */
  ghost predicate Answers(job: Job, log: seq<Event>, pages: seq<InventoryPage>, acks: seq<Ack>) {
    && |acks| <= |pages|
    && forall k: nat :: k < |acks| ==> Acknowledged(InventoryEnvelope(job, pages, k), acks[k]) in log
  }

  /** The same phase of the same operation. */
  predicate SameCourse(a: Stage, b: Stage) {
    a.Sending? && b.Sending? && a.phase == b.phase && a.inventory == b.inventory && a.pages == b.pages
  }

  lemma RecordingAgain(c: Catalog, page: Hashes)
    requires Recorded(c, page)
    ensures RecordInventory(c, page) == c
  {
    AlreadyRecorded(c, page, []);
  }

  lemma RequestKeepsCatalog(c: Catalog, needed: Needed, page: Option<Hashes>)
    requires CatalogInvariant(c) && (page.Some? ==> Recorded(c, page.value)) && RecordNeeded(c, needed, page).Ok?
    ensures var d := RecordNeeded(c, needed, page).value;
            CatalogInvariant(d) && d.advertised == c.advertised
  {
    ApplyKeepsInvariant(c, RecordNeededCall(needed, page));
  }

  lemma RejectionIsWireError(c: Catalog, needed: Needed, page: Option<Hashes>)
    requires RecordNeeded(c, needed, page).Err?
    ensures WireError(RecordNeeded(c, needed, page).error)
  {
  }

  /** Sends one inventory page; what its acknowledgement asks for is exactly what is added to the catalog. */
  method SendInventoryPage(channel: Channel, catalog: SyncCatalog, page: Hashes, scope: Option<Hashes>, e: Envelope)
    returns (failed: Option<SyncError>, ghost ack: Option<Ack>)
    requires channel.Legal() && channel.Ready(e)
    requires catalog.budget.Accounted()
    requires CatalogInvariant(catalog.View()) && Recorded(catalog.View(), page)
    requires scope.Some? ==> scope.value == page
    modifies channel`log, channel`posts, channel.transfer
    modifies catalog, catalog.budget`usedBytes, catalog.budget`trackedCatalogBytes
    modifies catalog.budget.disk`commits, catalog.budget.disk`catalogBytes, catalog.budget.disk`probes
    ensures channel.Legal() && catalog.budget.Accounted() && old(channel.log) <= channel.log
    ensures CatalogInvariant(catalog.View()) && catalog.View().advertised == old(catalog.View().advertised)
    ensures failed.None? ==>
              && ack.Some? && Acknowledged(e, ack.value) in channel.log
              && RecordNeeded(old(catalog.View()), ack.value.needed, scope) == Ok(catalog.View())
              && channel.Now().stage == old(channel.Now().stage).(next := old(channel.Now().stage.next) + 1, last := None)
              && channel.Now().sent == old(channel.Now().sent) + channel.job.gzipLength(e)
    ensures failed.Some? ==> WireError(failed.value) && SameCourse(channel.Now().stage, old(channel.Now().stage))
  {
    hide CatalogInvariant, Recorded, RecordInventory, RecordNeeded, Encodable, JudgeReply;
    ack := None;
    RecordingAgain(catalog.View(), page);
    catalog.Record(page);
    var reply := channel.PostWithRetries(e);
    if reply.Err? {
      return Some(reply.error), ack;
    }
    ack := Some(reply.value);
    ghost var before := catalog.View();
    failed := catalog.Request(reply.value.needed, scope);
    if failed.Some? {
      RejectionIsWireError(before, reply.value.needed, scope);
      return;
    }
    RequestKeepsCatalog(before, reply.value.needed, scope);
    failed := catalog.budget.EnsureWithinLimit();
  }

  method SendInventory(channel: Channel, catalog: SyncCatalog, pages: seq<InventoryPage>)
    returns (total: nat, failed: Option<SyncError>, ghost acks: seq<Ack>)
    requires channel.Legal() && catalog.budget.Accounted()
    requires channel.Now() == Progress(
               Sending(InventoryPhase, InventoryPayloads(pages), InventoryPayloads(pages), 0, 0, None), 0, 0)
    requires PhaseEncodable(channel.job, InventoryPhase, InventoryPayloads(pages))
    requires CatalogInvariant(catalog.View()) && forall p :: p in pages ==> Recorded(catalog.View(), p.hashes)
    modifies channel`log, channel`posts, channel.transfer
    modifies catalog, catalog.budget`usedBytes, catalog.budget`trackedCatalogBytes
    modifies catalog.budget.disk`commits, catalog.budget.disk`catalogBytes, catalog.budget.disk`probes
    ensures channel.Legal() && catalog.budget.Accounted() && old(channel.log) <= channel.log
    ensures CatalogInvariant(catalog.View()) && catalog.View().advertised == old(catalog.View().advertised)
    ensures failed.None? ==>
              && |acks| == |pages| && Answers(channel.job, channel.log, pages, acks)
              && Requested(old(catalog.View()), pages, acks) == Ok(catalog.View())
              && channel.Now().stage
                 == Sending(InventoryPhase, InventoryPayloads(pages), InventoryPayloads(pages), |pages|, 0, None)
              && total == channel.Now().sent
    ensures failed.Some? ==> WireError(failed.value) && SameCourse(channel.Now().stage, old(channel.Now().stage))
  {
    hide CatalogInvariant, RecordNeeded, Step, Replay;
    var payloads := InventoryPayloads(pages);
    total, failed, acks := 0, None, [];
    for n := 0 to |pages|
      invariant channel.Legal() && catalog.budget.Accounted() && old(channel.log) <= channel.log
      invariant CatalogInvariant(catalog.View()) && catalog.View().advertised == old(catalog.View().advertised)
      invariant |acks| == n && Answers(channel.job, channel.log, pages, acks)
      invariant Requested(old(catalog.View()), pages, acks) == Ok(catalog.View())
      invariant channel.Now().stage == Sending(InventoryPhase, payloads, payloads, n, 0, None)
      invariant total == channel.Now().sent
    {
      var e := EnvelopeAt(channel.job, InventoryPhase, payloads, n);
      ghost var ack;
      failed, ack := SendInventoryPage(channel, catalog, pages[n].hashes, ScopeOf(pages, n), e);
      if failed.Some? {
        return;
      }
      OneMoreRequest(old(catalog.View()), pages, acks, ack.value);
      acks := acks + [ack.value];
      total := total + channel.job.gzipLength(e);
    }
    failed := None;
  }

  /** Removing the inventory directory gives back exactly its bytes: the release cannot fail. */
  method ReleaseInventory(budget: WorkspaceBudget, pages: seq<InventoryPage>) returns (failed: Option<SyncError>)
    requires budget.Accounted() && budget.disk.inventory == Lengths(pages)
    modifies budget`usedBytes, budget.disk`inventory
    ensures failed.None? && budget.Accounted()
  {
    var size := 0;
    ghost var lengths := Lengths(pages);
    for i := 0 to |pages|
      invariant size == Sum(lengths[..i])
      invariant budget.Accounted() && budget.disk.inventory == lengths
    {
      assert lengths[..i + 1] == lengths[..i] + [pages[i].length];
      SumAppend(lengths[..i], pages[i].length);
      size := size + pages[i].length;
    }
    assert lengths[..|pages|] == lengths;
    assert size == Sum(lengths);
    assert size == Sum(budget.disk.inventory);
    budget.disk.RemoveInventory();
    assert budget.disk.Size() == old(budget.disk.Size()) - size;
    failed := budget.Release(size);
  }

  // ------------------------------------------------------------------ Data phase

  method SendData(channel: Channel, payloads: seq<Payload>, before: nat)
    returns (total: nat, failed: Option<SyncError>, last: Option<Ack>)
    requires channel.Legal() && channel.Now().stage.Sending? && payloads != []
    requires channel.Now().stage == Sending(DataPhase, channel.Now().stage.inventory, payloads, 0, 0, None)
    requires PhaseEncodable(channel.job, DataPhase, payloads) && before == channel.Now().sent
    modifies channel`log, channel`posts, channel.transfer
    ensures channel.Legal() && old(channel.log) <= channel.log
    ensures failed.None? ==>
              && channel.Now().stage == old(channel.Now().stage).(next := |payloads|)
              && total == channel.Now().sent
              && last.Some?
              && Acknowledged(EnvelopeAt(channel.job, DataPhase, payloads, |payloads| - 1), last.value) in channel.log
    ensures failed.Some? ==> WireError(failed.value) && SameCourse(channel.Now().stage, old(channel.Now().stage))
  {
    hide Step, Replay, PhaseBytes, JudgeReply;
    total := before;
    last := None;
    for n := 0 to |payloads|
      invariant channel.Legal() && old(channel.log) <= channel.log
      invariant channel.Now().stage == old(channel.Now().stage).(next := n)
      invariant total == channel.Now().sent
      invariant n == |payloads| ==>
                  && last.Some?
                  && Acknowledged(EnvelopeAt(channel.job, DataPhase, payloads, n - 1), last.value) in channel.log
    {
      var e := EnvelopeAt(channel.job, DataPhase, payloads, n);
      var ack := channel.PostWithRetries(e);
      if ack.Err? {
        return total, Some(ack.error), last;
      }
      total := total + channel.job.gzipLength(e);
      if n + 1 == |payloads| {
        last := Some(ack.value);
      }
    }
    return total, None, last;
  }

  // --------------------------------------------------------------- The operation

  datatype DeliveryResult = DeliveryResult(
    pageCount: nat, totalCompressedBytes: nat, operation: seq<Payload>, lastPage: Envelope)

  /** What the operation advertised, how the receiver answered, what that asked for, and what was spooled for it. */
  datatype Report = Report(inventory: seq<InventoryPage>, acks: seq<Ack>, catalog: Catalog, data: seq<Page>)

  method CheckTransferBudget(total: nat) returns (failed: Option<SyncError>)
    ensures failed == if total <= MAX_SYNC_TRANSFER_BYTES then None else Some(WorkspaceLimit)
  {
    return if total > MAX_SYNC_TRANSFER_BYTES then Some(WorkspaceLimit) else None;
  }

  /** Spools, preflights and announces the inventory of the first snapshot. */
  method PrepareInventory(s: Snapshot, inventoryLength: Hashes -> nat, catalog: SyncCatalog, channel: Channel)
    returns (pages: seq<InventoryPage>, bytes: nat, failed: Option<SyncError>)
    requires InKeyOrder(s.matches) && catalog.View() == EMPTY_CATALOG && catalog.budget.Accounted()
    requires catalog.budget.pageCount == 0 && catalog.budget.disk.inventory == []
    requires channel.Legal() && channel.Now() == Progress(Idle, 0, 0)
    modifies catalog, catalog.budget`usedBytes, catalog.budget`trackedCatalogBytes, catalog.budget`pageCount
    modifies catalog.budget.disk`probes, catalog.budget.disk`commits, catalog.budget.disk`catalogBytes
    modifies catalog.budget.disk`inventory, catalog.budget.disk`data, channel`log
    ensures channel.Legal() && catalog.budget.Accounted()
    ensures failed.None? ==>
              && channel.Now() == Progress(
                   Sending(InventoryPhase, InventoryPayloads(pages), InventoryPayloads(pages), 0, 0, None), 0, 0)
              && PhaseEncodable(channel.job, InventoryPhase, InventoryPayloads(pages))
              && bytes == PhaseBytes(channel.job, InventoryPhase, InventoryPayloads(pages), |pages|)
              && PairsOf(pages) == KeysInOrder(s.matches)
              && Describes(s, Keys(s.matches), catalog.View().advertised)
              && CatalogInvariant(catalog.View())
              && catalog.View() == EMPTY_CATALOG.(advertised := catalog.View().advertised)
              && (forall p :: p in pages ==> TruePage(s, p) && Recorded(catalog.View(), p.hashes))
              && catalog.budget.disk.inventory == Lengths(pages)
              && catalog.budget.pageCount == |pages| < catalog.budget.maxPages
    ensures failed.Some? ==> failed.value in {WorkspaceLimit, UnsendableClosure, MissingGraphHash}
    ensures failed.Some? ==> channel.Now() == old(channel.Now())
    ensures failed == Some(MissingGraphHash) ==> !ForeignKeys(s)
  {
    hide Describes, Unlistable, ForeignKeys, PairsOf, TruePage, EndpointsListed, KeysInOrder, PhaseBytes, Recorded, Encodable;
    bytes, pages := 0, [];
    var spooler := new InventorySpooler(s, inventoryLength, catalog, catalog.budget);
    failed := spooler.SpoolInventoryPages();
    if failed.Some? {
      return;
    }
    pages := spooler.pages;
    DescribedAreListed(s, Keys(s.matches), catalog.View().advertised);
    var preflight := PreflightPhasePages(channel.job, InventoryPhase, InventoryPayloads(pages));
    if preflight.Err? {
      return pages, 0, Some(preflight.error);
    }
    bytes := preflight.value;
    failed := CheckTransferBudget(bytes);
    if failed.None? {
      channel.Note(InventoryReady(InventoryPayloads(pages)));
    }
  }

  /** A finished data phase: every page verified, the request answered, page numbers left. */
  ghost predicate DataSpooled(src: Source, pages: seq<Page>) {
    && pages != []
    && (forall p :: p in pages ==> GoodPage(src, p))
    && (forall p :: p in pages && ItemCount(p.batch) > 0 ==> WithinLimits(src, p))
    && (|pages| > 1 ==> forall p :: p in pages ==> ItemCount(p.batch) > 0)
    && Exact(src.catalog, src.snapshot, pages)
  }

  lemma SpoolAllIsDataSpooled(src: Source, w: Workspace)
    requires InKeyOrder(src.snapshot.matches) && CatalogInvariant(src.catalog)
    ensures var r := SpoolAll(src, w);
            && (r.error.None? ==> DataSpooled(src, r.pages) && r.work.pageCount == w.pageCount + |r.pages| <= w.maxPages)
            && (r.error.Some? ==> r.error.value in {WorkspaceLimit, UnsendableClosure, SnapshotChanged})
            && (r.error == Some(SnapshotChanged) ==> !Unchanged(src))
  {
    hide CatalogInvariant, SpoolAll, GoodPage, WithinLimits, SentRows, SentExtras, Unsendable, Unchanged, Exact, Present;
    DataPhaseSpooledWell(src, w);
    ExactDelivery(src, w);
    if Unchanged(src) {
      UnchangedDatabaseNeverRaises(src, w);
    }
  }

  /**
    The envelope reserve suffices: if an envelope adds at most the reserve to its
    content, the preflight of the data phase cannot fail.
  */
  lemma EnvelopeReserveSuffices(job: Job, src: Source, pages: seq<Page>)
    requires DataSpooled(src, pages)
    requires forall e: Envelope :: e.content.DataPayload? ==>
               && job.rawLength(e) <= src.codec.contentLength(e.content.content) + ENVELOPE_RESERVE_BYTES
               && job.gzipLength(e) <= src.codec.contentGzip(e.content.content) + ENVELOPE_RESERVE_BYTES
    requires var nothing := ContentOf(src.snapshot, Batch([], []));
             src.codec.contentLength(nothing) <= HARD_LIMIT && src.codec.contentGzip(nothing) <= GZIP_LIMIT
    ensures PhaseEncodable(job, DataPhase, DataPayloads(pages))
  {
    hide ContentOf, Verified, Exact, ExpectedOf;
    forall n: nat | n < |pages| ensures Encodable(job, EnvelopeAt(job, DataPhase, DataPayloads(pages), n)) {
      var p := pages[n];
      assert GoodPage(src, p);
      if ItemCount(p.batch) == 0 {
        assert p.batch == Batch([], []);
      } else {
        assert WithinLimits(src, p);
      }
    }
  }

  /** Spools and verifies the request against the second snapshot. */
  method SpoolData(s: Snapshot, codec: Codec, catalog: SyncCatalog) returns (pages: seq<Page>, failed: Option<SyncError>)
    requires InKeyOrder(s.matches) && CatalogInvariant(catalog.View())
    modifies catalog.budget`usedBytes, catalog.budget`pageCount
    modifies catalog.budget.disk`probes, catalog.budget.disk`inventory, catalog.budget.disk`data
    ensures var src := Source(s, codec, catalog.View(), catalog.budget.disk.freeAt);
            && (failed.None? ==>
                  && DataSpooled(src, pages)
                  && catalog.budget.pageCount == old(catalog.budget.pageCount) + |pages| <= catalog.budget.maxPages)
            && (failed.Some? ==> failed.value in {WorkspaceLimit, UnsendableClosure, SnapshotChanged})
            && (failed == Some(SnapshotChanged) ==> !Unchanged(src))
    ensures old(catalog.budget.Accounted()) ==> catalog.budget.Accounted()
  {
    hide CatalogInvariant, SpoolAll, DataSpooled, Unchanged;
    ghost var src := Source(s, codec, catalog.View(), catalog.budget.disk.freeAt);
    SpoolAllIsDataSpooled(src, catalog.budget.View());
    AppendEmpty(SpoolAll(src, catalog.budget.View()).pages);
    var spooler := new DataSpooler(s, codec, catalog, catalog.budget);
    failed := spooler.SpoolDataPages();
    pages := spooler.pages;
  }

  /** Spools, preflights and announces the data pages. */
  method PrepareData(s: Snapshot, codec: Codec, catalog: SyncCatalog, channel: Channel, inventoryBytes: nat)
    returns (pages: seq<Page>, bytes: nat, failed: Option<SyncError>)
    requires InKeyOrder(s.matches) && CatalogInvariant(catalog.View())
    requires channel.Legal() && channel.Now().stage.Released?
    modifies catalog.budget`usedBytes, catalog.budget`pageCount
    modifies catalog.budget.disk`probes, catalog.budget.disk`inventory, catalog.budget.disk`data, channel`log
    ensures channel.Legal() && old(channel.log) <= channel.log
    ensures failed.Some? ==> channel.Now() == old(channel.Now())
    ensures old(catalog.budget.Accounted()) ==> catalog.budget.Accounted()
    ensures failed.None? ==>
              && channel.Now() == old(channel.Now()).(
                   stage := Sending(DataPhase, old(channel.Now().stage.inventory), DataPayloads(pages), 0, 0, None))
              && PhaseEncodable(channel.job, DataPhase, DataPayloads(pages))
              && bytes == PhaseBytes(channel.job, DataPhase, DataPayloads(pages), |pages|)
              && inventoryBytes + bytes <= MAX_SYNC_TRANSFER_BYTES
              && DataSpooled(Source(s, codec, catalog.View(), catalog.budget.disk.freeAt), pages)
              && catalog.budget.pageCount == old(catalog.budget.pageCount) + |pages| <= catalog.budget.maxPages
    ensures failed.Some? ==> failed.value in {WorkspaceLimit, UnsendableClosure, SnapshotChanged}
    ensures failed == Some(SnapshotChanged) ==>
              !Unchanged(Source(s, codec, catalog.View(), catalog.budget.disk.freeAt))
  {
    hide CatalogInvariant, DataSpooled, Unchanged;
    bytes := 0;
    pages, failed := SpoolData(s, codec, catalog);
    if failed.Some? {
      return;
    }
    var preflight := PreflightPhasePages(channel.job, DataPhase, DataPayloads(pages));
    if preflight.Err? {
      return pages, 0, Some(preflight.error);
    }
    bytes := preflight.value;
    failed := CheckTransferBudget(inventoryBytes + bytes);
    if failed.None? {
      channel.Note(DataReady(DataPayloads(pages)));
    }
  }

  // -------------------------------------------------------------- What it all means

  /** The inventory pages list every match of the first snapshot with its own hashes. */
  ghost predicate InventoryIsTrue(s: Snapshot, inventory: seq<InventoryPage>) {
    PairsOf(inventory) == KeysInOrder(s.matches) && forall p :: p in inventory ==> TruePage(s, p)
  }

  /** The catalog holds the first snapshot's hashes and exactly what the receiver asked for. */
  ghost predicate RequestIsTheReceivers(job: Job, log: seq<Event>, s: Snapshot, report: Report) {
    && Describes(s, Keys(s.matches), report.catalog.advertised)
    && |report.acks| == |report.inventory| && Answers(job, log, report.inventory, report.acks)
    && Requested(EMPTY_CATALOG.(advertised := report.catalog.advertised), report.inventory, report.acks)
       == Ok(report.catalog)
    && CatalogInvariant(report.catalog) && RequestsExactly(report.catalog, report.acks)
    && WithinTheirPages(report.inventory, report.acks)
  }

  /** Each acknowledgement but the last names only what the page it answers lists. */
  ghost predicate WithinTheirPages(pages: seq<InventoryPage>, acks: seq<Ack>) {
    |acks| <= |pages|
    && forall k: nat :: k < |acks| && k + 1 < |pages| ==> acks[k].needed.Needed? && NamesOnly(acks[k].needed, pages[k].hashes)
  }

  lemma {:induction false} AcknowledgementsStayWithin(c: Catalog, pages: seq<InventoryPage>, acks: seq<Ack>)
    requires |acks| <= |pages| && Requested(c, pages, acks).Ok?
    ensures WithinTheirPages(pages, acks)
  {
    if acks != [] {
      hide RecordNeeded, NamesOnly, NamesAdvertised, WithinTheirPages;
      var n := |acks| - 1;
      assert acks == acks[..n] + [acks[n]];
      AcknowledgementsStayWithin(c, pages, acks[..n]);
      AcceptedRequests(Requested(c, pages, acks[..n]).value, acks[n].needed, ScopeOf(pages, n));
      OneMoreWithin(pages, acks[..n], acks[n]);
    }
  }

  lemma OneMoreWithin(pages: seq<InventoryPage>, acks: seq<Ack>, ack: Ack)
    requires WithinTheirPages(pages, acks) && |acks| < |pages|
    requires |acks| + 1 < |pages| ==> ack.needed.Needed? && NamesOnly(ack.needed, pages[|acks|].hashes)
    ensures WithinTheirPages(pages, acks + [ack])
  {
    hide NamesOnly;
  }

  /** The identifiers requested are those some acknowledgement names, no more and no fewer. */
  ghost predicate RequestsExactly(c: Catalog, acks: seq<Ack>) {
    && (forall p :: p in c.requestedMatches <==> exists k :: 0 <= k < |acks| && AsksForMatch(acks[k].needed, p))
    && (forall id :: id in c.requestedLost <==> exists k :: 0 <= k < |acks| && AsksForLost(acks[k].needed, id))
    && (forall id :: id in c.requestedAuction <==> exists k :: 0 <= k < |acks| && AsksForAuction(acks[k].needed, id))
  }

  lemma {:induction false} AcknowledgementsRequestExactly(c: Catalog, pages: seq<InventoryPage>, acks: seq<Ack>)
    requires |acks| <= |pages| && Requested(c, pages, acks).Ok?
    requires c.requestedMatches == {} && c.requestedLost == {} && c.requestedAuction == {}
    ensures RequestsExactly(Requested(c, pages, acks).value, acks)
  {
    if acks != [] {
      hide RecordNeeded, RequestsExactly, AddsWhatIsAsked;
      var n := |acks| - 1;
      assert acks == acks[..n] + [acks[n]];
      AcknowledgementsRequestExactly(c, pages, acks[..n]);
      var before := Requested(c, pages, acks[..n]).value;
      RequestsWhatIsAsked(before, acks[n].needed, ScopeOf(pages, n));
      OneMoreAsked(before, acks[..n], acks[n], Requested(c, pages, acks).value);
    }
  }

  lemma OneMoreAsked(c: Catalog, acks: seq<Ack>, ack: Ack, d: Catalog)
    requires RequestsExactly(c, acks) && AddsWhatIsAsked(c, ack.needed, d)
    ensures RequestsExactly(d, acks + [ack])
  {
    hide AsksForMatch, AsksForLost, AsksForAuction;
    var all := acks + [ack];
    assert all[|acks|] == ack && forall k :: 0 <= k < |acks| ==> all[k] == acks[k];
  }

  /** What an announcement in the log stands for, on every path. */
  ghost predicate Grounded(
    job: Job, log: seq<Event>, s1: Snapshot, s2: Snapshot, codec: Codec, free: nat -> int, report: Report)
  {
    && (forall p :: InventoryReady(p) in log ==>
          p == InventoryPayloads(report.inventory) && InventoryIsTrue(s1, report.inventory))
    && (forall p :: DataReady(p) in log ==>
          && p == DataPayloads(report.data)
          && RequestIsTheReceivers(job, log, s1, report)
          && DataSpooled(Source(s2, codec, report.catalog, free), report.data))
  }

  /**
    In every run, finished or not: a data page that was ever posted is one of the
    pages spooled and verified for the receiver's own request, carries the closures
    of the advertised snapshot, and was posted after the whole true inventory had
    been accepted.
  */
  lemma EveryPostedDataPageIsSound(
    job: Job, log: seq<Event>, i: nat, s1: Snapshot, s2: Snapshot, codec: Codec, free: nat -> int, report: Report)
    requires Replay(job, log).Some? && Grounded(job, log, s1, s2, codec, free, report) && ValidSnapshot(s2)
    requires i < |log| && log[i].Posted? && log[i].envelope.phase.DataPhase?
    ensures InventoryIsTrue(s1, report.inventory)
    ensures InventoryDelivered(job, log[..i], InventoryPayloads(report.inventory))
    ensures RequestIsTheReceivers(job, log, s1, report)
    ensures exists k: nat ::
              && k < |report.data| && log[i].envelope == EnvelopeAt(job, DataPhase, DataPayloads(report.data), k)
              && GoodPage(Source(s2, codec, report.catalog, free), report.data[k])
              && ClosuresOf(s1, report.data[k].content) && CarriesRowsOf(s1, report.data[k].content)
              && CarriesItems(report.data[k])
  {
    hide RequestIsTheReceivers, InventoryIsTrue, PhaseEncodable, ClosuresOf, CarriesRowsOf, CarriesItems, ConfirmedUpTo, ValidSnapshot;
    NoDataBeforeInventoryAcknowledged(job, log, i);
    var inventory, pages, k: nat :|
      && InventoryDelivered(job, log[..i], inventory)
      && DataReady(pages) in log[..i] && PhaseEncodable(job, DataPhase, pages)
      && k < |pages| && log[i].envelope == EnvelopeAt(job, DataPhase, pages, k)
      && ConfirmedUpTo(job, log[..i], DataPhase, pages, k);
    assert DataReady(pages) in log && InventoryReady(inventory) in log;
    AdvertisedIsTrue(job, log, s1, report);
    TwoSnapshotSoundness(s1, Source(s2, codec, report.catalog, free), report.data[k]);
  }

  lemma AdvertisedIsTrue(job: Job, log: seq<Event>, s: Snapshot, report: Report)
    requires RequestIsTheReceivers(job, log, s, report)
    ensures TrueHashes(s, report.catalog.advertised)
  {
  }

  /** What a finished operation means for the two snapshots. */
  ghost predicate Sound(job: Job, log: seq<Event>, s1: Snapshot, s2: Snapshot, report: Report) {
    && InventoryIsTrue(s1, report.inventory)
    && RequestIsTheReceivers(job, log, s1, report)
    && Exact(report.catalog, s2, report.data)
    && (forall p :: p in report.data ==>
          && ClosuresOf(s1, p.content) && CarriesRowsOf(s1, p.content) && CarriesItems(p)
          && p.content == ContentOf(s2, p.batch))
  }

  lemma DataIsSound(job: Job, log: seq<Event>, s1: Snapshot, src: Source, report: Report)
    requires InventoryIsTrue(s1, report.inventory) && RequestIsTheReceivers(job, log, s1, report)
    requires ValidSnapshot(src.snapshot) && src.catalog == report.catalog && DataSpooled(src, report.data)
    ensures Sound(job, log, s1, src.snapshot, report)
  {
    hide InventoryIsTrue, RequestIsTheReceivers, Exact, ClosuresOf, CarriesRowsOf, CarriesItems, TrueHashes, ContentOf, Verified, ExpectedOf;
    hide ValidSnapshot;
    AdvertisedIsTrue(job, log, s1, report);
    forall p | p in report.data
      ensures ClosuresOf(s1, p.content) && CarriesRowsOf(s1, p.content) && CarriesItems(p)
      ensures p.content == ContentOf(src.snapshot, p.batch)
    {
      TwoSnapshotSoundness(s1, src, p);
    }
  }

  /** The channel's last stage: both phases acknowledged to the end. */
  function AllSent(report: Report): Stage {
    Sending(DataPhase, InventoryPayloads(report.inventory), DataPayloads(report.data), |report.data|, 0, None)
  }

  /** The receiver said so: either of the last page, or of the operation when polled. */
  ghost predicate ReceiverCompleted(log: seq<Event>, result: DeliveryResult) {
    || (exists ack: Ack :: Acknowledged(result.lastPage, ack) in log && ack.complete.True?)
    || (exists answer :: Polled(answer) in log && JudgePoll(answer, result.operation).Done?)
  }

  /** Numbers reported by a finished operation. */
  ghost predicate Accurate(channel: Channel, result: DeliveryResult, report: Report)
    reads channel, channel.transfer
    requires channel.Legal()
  {
    var inventory, data := InventoryPayloads(report.inventory), DataPayloads(report.data);
    && result.operation == data != []
    && result.lastPage == EnvelopeAt(channel.job, DataPhase, data, |data| - 1)
    && result.pageCount == |inventory| + |data| <= MAX_SYNC_OPERATION_PAGES
    && result.totalCompressedBytes
       == PhaseBytes(channel.job, InventoryPhase, inventory, |inventory|) + PhaseBytes(channel.job, DataPhase, data, |data|)
       == channel.Now().sent
    && channel.Now().sent <= channel.Now().attempted == AttemptedBytes(channel.log)
    && channel.Now().attempted <= channel.transfer.maxBytes
  }

  lemma NumbersAreAccurate(channel: Channel, result: DeliveryResult, report: Report)
    requires channel.Legal() && channel.Now().stage == AllSent(report)
    requires result.operation == DataPayloads(report.data) != []
    requires result.lastPage == EnvelopeAt(channel.job, DataPhase, result.operation, |result.operation| - 1)
    requires result.pageCount == |report.inventory| + |report.data| <= MAX_SYNC_OPERATION_PAGES
    requires result.totalCompressedBytes == channel.Now().sent
    ensures Accurate(channel, result, report)
  {
    SentWithinAttempted(channel.job, channel.log);
  }

  lemma UnchangedWhenEqual(s1: Snapshot, src: Source)
    requires ValidSnapshot(s1) && Describes(s1, Keys(s1.matches), src.catalog.advertised) && !Unchanged(src)
    ensures s1 != src.snapshot
  {
  }

  lemma DataSpooledHasPages(src: Source, pages: seq<Page>)
    requires DataSpooled(src, pages)
    ensures pages != []
  {
  }

  /** A longer log has the same answers. */
  lemma AnswersStay(job: Job, log: seq<Event>, more: seq<Event>, s: Snapshot, report: Report, data: seq<Page>)
    requires log <= more && RequestIsTheReceivers(job, log, s, report)
    ensures RequestIsTheReceivers(job, more, s, report.(data := data))
  {
    hide Describes, CatalogInvariant, Requested, RequestsExactly, WithinTheirPages;
  }

  /** While nothing is announced but the inventory, only the inventory has to be grounded. */
  lemma GroundedBeforeData(
    job: Job, log: seq<Event>, s1: Snapshot, s2: Snapshot, codec: Codec, free: nat -> int, report: Report)
    requires Replay(job, log).Some?
    requires var stage := Replay(job, log).value.stage;
             stage.Idle? || ((stage.Released? || (stage.Sending? && stage.phase.InventoryPhase?))
                             && stage.inventory == InventoryPayloads(report.inventory)
                             && InventoryIsTrue(s1, report.inventory))
    ensures Grounded(job, log, s1, s2, codec, free, report)
  {
    hide InventoryIsTrue, RequestIsTheReceivers, DataSpooled;
    AnnouncementsAreTheStages(job, log);
  }

  lemma GroundedWithData(
    job: Job, log: seq<Event>, s1: Snapshot, s2: Snapshot, codec: Codec, free: nat -> int, report: Report)
    requires Replay(job, log).Some?
    requires var stage := Replay(job, log).value.stage;
             && stage.Sending? && stage.phase.DataPhase?
             && stage.inventory == InventoryPayloads(report.inventory) && stage.pages == DataPayloads(report.data)
    requires InventoryIsTrue(s1, report.inventory) && RequestIsTheReceivers(job, log, s1, report)
    requires DataSpooled(Source(s2, codec, report.catalog, free), report.data)
    ensures Grounded(job, log, s1, s2, codec, free, report)
  {
    hide InventoryIsTrue, RequestIsTheReceivers, DataSpooled;
    AnnouncementsAreTheStages(job, log);
  }

  /** From the released inventory to the last acknowledgement. */
  method DeliverData(
    s1: Snapshot, s2: Snapshot, codec: Codec, catalog: SyncCatalog, channel: Channel, inventory: seq<InventoryPage>,
    ghost acks: seq<Ack>, inventoryBytes: nat, sent: nat)
    returns (r: Result<(DeliveryResult, Ack), SyncError>, ghost report: Report)
    requires ValidSnapshot(s1) && ValidSnapshot(s2)
    requires InventoryIsTrue(s1, inventory)
    requires RequestIsTheReceivers(channel.job, channel.log, s1, Report(inventory, acks, catalog.View(), []))
    requires channel.Legal() && channel.Now().stage == Released(InventoryPayloads(inventory)) && channel.Now().sent == sent
    requires catalog.budget.pageCount == |inventory| && catalog.budget.maxPages == MAX_SYNC_OPERATION_PAGES
    modifies catalog.budget`usedBytes, catalog.budget`pageCount
    modifies catalog.budget.disk`probes, catalog.budget.disk`inventory, catalog.budget.disk`data
    modifies channel`log, channel`posts, channel.transfer
    ensures channel.Legal() && old(channel.log) <= channel.log
    ensures Grounded(channel.job, channel.log, s1, s2, codec, catalog.budget.disk.freeAt, report)
    ensures r.Ok? ==>
              && Sound(channel.job, channel.log, s1, s2, report)
              && DataSpooled(Source(s2, codec, report.catalog, catalog.budget.disk.freeAt), report.data)
              && channel.Now().stage == AllSent(report)
              && Accurate(channel, r.value.0, report)
              && Acknowledged(r.value.0.lastPage, r.value.1) in channel.log
    ensures r.Err? ==> r.error in {WorkspaceLimit, UnsendableClosure, SnapshotChanged} || WireError(r.error)
    ensures r.Err? && r.error == SnapshotChanged ==> s1 != s2
  {
    hide InventoryIsTrue, RequestIsTheReceivers, DataSpooled, Unchanged, Sound, PhaseEncodable, Accurate, Grounded;
    hide InKeyOrder, UniqueKeys, PhaseBytes, JudgeReply, Step, Replay, CatalogInvariant, Describes;
    ghost var free := catalog.budget.disk.freeAt;
    report := Report(inventory, acks, catalog.View(), []);
    ghost var src := Source(s2, codec, catalog.View(), free);
    RequestFacts(channel.job, channel.log, s1, report);
    var pages, bytes, failed := PrepareData(s2, codec, catalog, channel, inventoryBytes);
    if failed.Some? {
      GroundedBeforeData(channel.job, channel.log, s1, s2, codec, free, report);
      if failed.value == SnapshotChanged {
        UnchangedWhenEqual(s1, src);
      }
      return Err(failed.value), report;
    }
    DataSpooledHasPages(src, pages);
    var payloads := DataPayloads(pages);
    ghost var asked, log := report, channel.log;
    AnswersStay(channel.job, old(channel.log), log, s1, asked, pages);
    report := Report(inventory, acks, catalog.View(), pages);
    var total, broken, last := SendData(channel, payloads, sent);
    AnswersStay(channel.job, log, channel.log, s1, report, pages);
    GroundedWithData(channel.job, channel.log, s1, s2, codec, free, report);
    if broken.Some? {
      return Err(broken.value), report;
    }
    DataIsSound(channel.job, channel.log, s1, src, report);
    var result := DeliveryResult(
      |inventory| + |pages|, total, payloads, EnvelopeAt(channel.job, DataPhase, payloads, |payloads| - 1));
    NumbersAreAccurate(channel, result, report);
    return Ok((result, last.value)), report;
  }

  lemma RequestFacts(job: Job, log: seq<Event>, s: Snapshot, report: Report)
    requires RequestIsTheReceivers(job, log, s, report)
    ensures CatalogInvariant(report.catalog) && Describes(s, Keys(s.matches), report.catalog.advertised)
  {
  }

  /** From the first snapshot to the released inventory. */
  method DeliverInventory(
    s1: Snapshot, inventoryLength: Hashes -> nat, catalog: SyncCatalog, channel: Channel,
    ghost s2: Snapshot, ghost codec: Codec)
    returns (pages: seq<InventoryPage>, bytes: nat, sent: nat, failed: Option<SyncError>, ghost acks: seq<Ack>)
    requires InKeyOrder(s1.matches) && catalog.View() == EMPTY_CATALOG && catalog.budget.Accounted()
    requires catalog.budget.pageCount == 0 && catalog.budget.disk.inventory == []
    requires channel.Legal() && channel.Now() == Progress(Idle, 0, 0)
    modifies catalog, catalog.budget`usedBytes, catalog.budget`trackedCatalogBytes, catalog.budget`pageCount
    modifies catalog.budget.disk`probes, catalog.budget.disk`commits, catalog.budget.disk`catalogBytes
    modifies catalog.budget.disk`inventory, catalog.budget.disk`data, channel`log, channel`posts, channel.transfer
    ensures channel.Legal() && catalog.budget.Accounted()
    ensures failed.None? ==>
              && InventoryIsTrue(s1, pages)
              && RequestIsTheReceivers(channel.job, channel.log, s1, Report(pages, acks, catalog.View(), []))
              && channel.Now().stage == Released(InventoryPayloads(pages)) && channel.Now().sent == sent
              && catalog.budget.pageCount == |pages|
    ensures failed.Some? ==>
              Grounded(channel.job, channel.log, s1, s2, codec, catalog.budget.disk.freeAt, Report(pages, acks, catalog.View(), []))
    ensures failed.Some? ==> failed.value in {WorkspaceLimit, UnsendableClosure, MissingGraphHash} || WireError(failed.value)
    ensures failed == Some(MissingGraphHash) ==> !ForeignKeys(s1)
  {
    hide CatalogInvariant, Describes, PhaseEncodable, PairsOf, TruePage, Recorded, ForeignKeys;
    hide Replay, Encodable, Sum, PhaseBytes, RequestIsTheReceivers, Grounded, Requested, Answers;
    sent, acks := 0, [];
    pages, bytes, failed := PrepareInventory(s1, inventoryLength, catalog, channel);
    ghost var listed := catalog.View();
    ghost var free := catalog.budget.disk.freeAt;
    if failed.Some? {
      GroundedBeforeData(channel.job, channel.log, s1, s2, codec, free, Report(pages, acks, listed, []));
      return;
    }
    assert InventoryIsTrue(s1, pages);
    sent, failed, acks := SendInventory(channel, catalog, pages);
    if failed.Some? {
      GroundedBeforeData(channel.job, channel.log, s1, s2, codec, free, Report(pages, acks, catalog.View(), []));
      return;
    }
    failed := ReleaseInventory(catalog.budget, pages);
    ghost var log := channel.log;
    channel.Note(InventoryReleased);
    RequestEstablished(channel.job, log, channel.log, s1, Report(pages, acks, catalog.View(), []), listed);
  }

  /**
    `deliver_sync_operation`. The database may have changed in any way between
    the two snapshots, the receiver may answer anything, the disk may fill up.
    On every path the log is a legal run of the protocol, and whatever it
    announces is grounded in the snapshots and the receiver's own answers. A run
    that returns has sent, for exactly what the receiver asked for, exactly what
    was advertised.
  */
  method Deliver(
    s1: Snapshot, s2: Snapshot, codec: Codec, inventoryLength: Hashes -> nat, disk: Disk, channel: Channel)
    returns (r: Result<DeliveryResult, SyncError>, ghost report: Report)
    requires ValidSnapshot(s1) && ValidSnapshot(s2)
    requires disk.inventory == [] && disk.data == []
    requires channel.Legal() && channel.Now() == Progress(Idle, 0, 0)
    requires channel.transfer.maxBytes == MAX_SYNC_TRANSFER_BYTES
    modifies disk, channel, channel.transfer
    ensures channel.Legal() && AttemptedBytes(channel.log) <= MAX_SYNC_TRANSFER_BYTES
    ensures Grounded(channel.job, channel.log, s1, s2, codec, disk.freeAt, report)
    ensures r.Ok? ==>
              && Sound(channel.job, channel.log, s1, s2, report)
              && DataSpooled(Source(s2, codec, report.catalog, disk.freeAt), report.data)
              && channel.Now().stage == AllSent(report)
              && Accurate(channel, r.value, report)
              && ReceiverCompleted(channel.log, r.value)
    ensures r.Err? ==> r.error != InvalidRelease
    ensures r.Err? && r.error == SnapshotChanged ==> s1 != s2
    ensures r.Err? && r.error == MissingGraphHash ==> !ForeignKeys(s1)
  {
    hide Sound, Accurate, ForeignKeys, InventoryIsTrue, UniqueKeys, InKeyOrder;
    hide Replay, Sum, PhaseBytes, RequestIsTheReceivers, DataSpooled, Grounded;
    SentWithinAttempted(channel.job, channel.log);
    var budget := new WorkspaceBudget(disk);
    var catalog := new SyncCatalog(budget);
    ghost var acks;
    var pages, bytes, sent, failed;
    pages, bytes, sent, failed, acks := DeliverInventory(s1, inventoryLength, catalog, channel, s2, codec);
    report := Report(pages, acks, catalog.View(), []);
    SentWithinAttempted(channel.job, channel.log);
    if failed.Some? {
      return Err(failed.value), report;
    }
    var delivered;
    delivered, report := DeliverData(s1, s2, codec, catalog, channel, pages, acks, bytes, sent);
    SentWithinAttempted(channel.job, channel.log);
    if delivered.Err? {
      return Err(delivered.error), report;
    }
    var (result, last) := delivered.value;
    failed := FinishOperation(channel, result, last, s1, s2, codec, disk.freeAt, report);
    SentWithinAttempted(channel.job, channel.log);
    r := if failed.Some? then Err(failed.value) else Ok(result);
  }

  lemma RequestEstablished(
    job: Job, log: seq<Event>, more: seq<Event>, s: Snapshot, report: Report, listed: Catalog)
    requires log <= more && Answers(job, log, report.inventory, report.acks) && |report.acks| == |report.inventory|
    requires listed == EMPTY_CATALOG.(advertised := listed.advertised)
    requires report.catalog.advertised == listed.advertised && Describes(s, Keys(s.matches), listed.advertised)
    requires Requested(listed, report.inventory, report.acks) == Ok(report.catalog) && CatalogInvariant(report.catalog)
    ensures RequestIsTheReceivers(job, more, s, report)
  {
    hide Requested, Describes, CatalogInvariant, RequestsExactly, WithinTheirPages;
    AcknowledgementsRequestExactly(listed, report.inventory, report.acks);
    AcknowledgementsStayWithin(listed, report.inventory, report.acks);
  }

  /** Waits for the receiver unless the last acknowledgement already was complete. */
  method FinishOperation(
    channel: Channel, result: DeliveryResult, last: Ack,
    ghost s1: Snapshot, ghost s2: Snapshot, ghost codec: Codec, ghost free: nat -> int, ghost report: Report)
    returns (failed: Option<SyncError>)
    requires channel.Legal() && channel.Now().stage == AllSent(report) && Accurate(channel, result, report)
    requires Acknowledged(result.lastPage, last) in channel.log
    requires Sound(channel.job, channel.log, s1, s2, report)
    requires DataSpooled(Source(s2, codec, report.catalog, free), report.data)
    modifies channel`polled, channel`log
    ensures channel.Legal() && channel.Now() == old(channel.Now())
    ensures Grounded(channel.job, channel.log, s1, s2, codec, free, report)
    ensures Sound(channel.job, channel.log, s1, s2, report)
    ensures failed.None? ==> Accurate(channel, result, report) && ReceiverCompleted(channel.log, result)
    ensures failed.Some? ==> WireError(failed.value)
  {
    hide DataSpooled, Grounded, RequestIsTheReceivers, InventoryIsTrue, Exact, ClosuresOf, CarriesRowsOf, CarriesItems, ContentOf, Replay, PhaseBytes;
    ghost var before := channel.log;
    LastPageCompletes(channel.job, channel.log, result.lastPage, last);
    failed := None;
    if last.accepted.True? {
      failed := channel.WaitForAsyncApply(result.operation);
      SentWithinAttempted(channel.job, channel.log);
    }
    AnswersStay(channel.job, before, channel.log, s1, report, report.data);
    GroundedWithData(channel.job, channel.log, s1, s2, codec, free, report);
  }

  /** An acknowledgement of the last data page is complete, or asks to be polled. */
  lemma {:induction false} LastPageCompletes(job: Job, log: seq<Event>, e: Envelope, ack: Ack)
    requires Replay(job, log).Some? && Acknowledged(e, ack) in log && FinalDataPage(e)
    ensures ack.complete.True? || ack.accepted.True?
  {
    var before, event := log[..|log| - 1], log[|log| - 1];
    assert log == before + [event];
    if event == Acknowledged(e, ack) {
      AcceptedAcknowledgement(e, Replay(job, before).value.stage.last.value);
    } else {
      LastPageCompletes(job, before, e, ack);
    }
  }
}
