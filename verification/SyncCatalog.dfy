/**
  The advertised and requested identifiers of one operation (telemetry/sync_catalog.py).

  The four SQLite tables are two maps and two sets per entity type. The catalog
  class updates them in place; `Catalog` is its value, on which the properties
  are stated.
*/
module SyncCatalogs {
  import opened Artworks
  import opened Results
  import opened Tables
  import opened Sequences
  import opened SyncErrors
  import opened SyncBudget
  import opened SyncGraph

  datatype Catalog = Catalog(
    advertised: Hashes,
    requestedMatches: set<Pair>,
    requestedLost: set<Id>,
    requestedAuction: set<Id>)

  const EMPTY_CATALOG := Catalog(NO_HASHES, {}, {}, {})

  // ------------------------------------------------------- Acknowledged requests

  /** Text the receiver sent where a UUID belongs. Only the canonical spelling equals an inventory key. */
  datatype RawId = Canonical(id: Id) | OtherSpelling(id: Id, text: nat) | NotUuid(text: nat)

  datatype MatchItem = MatchItem(lost: RawId, auction: RawId) | MalformedItem

  datatype Field<+T> = Absent | NotArray | Array(items: seq<T>)

  datatype Needed =
    | NotObject
    | Needed(unknownFields: bool, matches: Field<MatchItem>, lost: Field<RawId>, auction: Field<RawId>)

  /** Identifiers after parsing. */
  datatype Request = Request(matches: set<Pair>, lost: set<Id>, auction: set<Id>)

  function Items<T>(f: Field<T>): seq<T> {
    if f.Array? then f.items else []
  }

  predicate WellFormed(n: Needed) {
    && n.Needed?
    && !n.unknownFields
    && !n.matches.NotArray? && !n.lost.NotArray? && !n.auction.NotArray?
    && MalformedItem !in Items(n.matches)
  }

  predicate InInventory(ids: seq<RawId>, known: set<Id>) {
    forall r :: r in ids ==> r.Canonical? && r.id in known
  }

  predicate MatchesInInventory(items: seq<MatchItem>, known: set<Pair>) {
    forall m :: m in items ==>
      m.MatchItem? && m.lost.Canonical? && m.auction.Canonical? && Pair(m.lost.id, m.auction.id) in known
  }

  /** `_validate_needed_acknowledgement`: compares the text as sent with the page's keys. */
  function ValidateNeeded(n: Needed, page: Hashes): Option<SyncError> {
    if !WellFormed(n) then Some(RejectedNeeded)
    else if !MatchesInInventory(Items(n.matches), page.matches.Keys) then Some(RejectedNeeded)
    else if !InInventory(Items(n.lost), page.lost.Keys) then Some(RejectedNeeded)
    else if !InInventory(Items(n.auction), page.auction.Keys) then Some(RejectedNeeded)
    else None
  }

  predicate Uuids(ids: seq<RawId>) {
    forall r :: r in ids ==> !r.NotUuid?
  }

  predicate UuidPairs(items: seq<MatchItem>) {
    forall m :: m in items ==> m.MatchItem? && !m.lost.NotUuid? && !m.auction.NotUuid?
  }

  function PairOf(m: MatchItem): Pair
    requires m.MatchItem? && !m.lost.NotUuid? && !m.auction.NotUuid?
  {
    Pair(m.lost.id, m.auction.id)
  }

  /** `_parse_needed_identifiers`: any spelling of a UUID is accepted and canonicalised. */
  function ParseNeeded(n: Needed): Result<Request, SyncError> {
    if !WellFormed(n) then Err(ProtocolViolation)
    else if !UuidPairs(Items(n.matches)) || !Uuids(Items(n.lost)) || !Uuids(Items(n.auction)) then Err(ProtocolViolation)
    else
      Ok(Request(
        set m | m in Items(n.matches) :: PairOf(m),
        set r | r in Items(n.lost) :: r.id,
        set r | r in Items(n.auction) :: r.id))
  }

  // ------------------------------------------------------------ Catalog updates

  /** `INSERT OR IGNORE`: a hash already advertised stays. */
  function Advertise(known: Hashes, page: Hashes): Hashes {
    Hashes(page.matches + known.matches, page.lost + known.lost, page.auction + known.auction)
  }

  function RecordInventory(c: Catalog, page: Hashes): Catalog {
    c.(advertised := Advertise(c.advertised, page))
  }

  function AddRequest(c: Catalog, r: Request): Catalog {
    c.(requestedMatches := c.requestedMatches + r.matches,
       requestedLost := c.requestedLost + r.lost + (set p | p in r.matches :: p.lost),
       requestedAuction := c.requestedAuction + r.auction + (set p | p in r.matches :: p.auction))
  }

  predicate Advertised(c: Catalog, r: Request) {
    r.matches <= c.advertised.matches.Keys && r.lost <= c.advertised.lost.Keys && r.auction <= c.advertised.auction.Keys
  }

  function RecordNeeded(c: Catalog, n: Needed, page: Option<Hashes>): Result<Catalog, SyncError> {
    if page.Some? && ValidateNeeded(n, page.value).Some? then Err(RejectedNeeded)
    else
      match ParseNeeded(n)
      case Err(e) => Err(e)
      case Ok(r) =>
        if page.None? && !Advertised(c, r) then Err(ProtocolViolation) else Ok(AddRequest(c, r))
  }

  // --------------------------------------------------- What an acknowledgement asks

  predicate Spells(r: RawId, id: Id) {
    !r.NotUuid? && r.id == id
  }

  /** Some match item names the pair. */
  ghost predicate AsksForMatch(n: Needed, p: Pair) {
    n.Needed? && exists m :: m in Items(n.matches) && m.MatchItem? && Spells(m.lost, p.lost) && Spells(m.auction, p.auction)
  }

  /** Some item names the artwork, on its own or as the lost end of a match. */
  ghost predicate AsksForLost(n: Needed, id: Id) {
    && n.Needed?
    && (|| (exists r :: r in Items(n.lost) && Spells(r, id))
        || (exists m :: m in Items(n.matches) && m.MatchItem? && Spells(m.lost, id)))
  }

  ghost predicate AsksForAuction(n: Needed, id: Id) {
    && n.Needed?
    && (|| (exists r :: r in Items(n.auction) && Spells(r, id))
        || (exists m :: m in Items(n.matches) && m.MatchItem? && Spells(m.auction, id)))
  }

  /** `d` requests what `c` did, and what the acknowledgement asks for. */
  ghost predicate AddsWhatIsAsked(c: Catalog, n: Needed, d: Catalog) {
    && d.advertised == c.advertised
    && (forall p :: p in d.requestedMatches <==> p in c.requestedMatches || AsksForMatch(n, p))
    && (forall id :: id in d.requestedLost <==> id in c.requestedLost || AsksForLost(n, id))
    && (forall id :: id in d.requestedAuction <==> id in c.requestedAuction || AsksForAuction(n, id))
  }

  lemma ParsedItems(n: Needed)
    requires ParseNeeded(n).Ok?
    ensures var r := ParseNeeded(n).value;
            && (forall p :: p in r.matches <==> AsksForMatch(n, p))
            && (forall id :: id in r.lost + (set p | p in r.matches :: p.lost) <==> AsksForLost(n, id))
            && (forall id :: id in r.auction + (set p | p in r.matches :: p.auction) <==> AsksForAuction(n, id))
  {
    var r := ParseNeeded(n).value;
    forall p ensures p in r.matches <==> AsksForMatch(n, p) {
      if m :| m in Items(n.matches) && m.MatchItem? && Spells(m.lost, p.lost) && Spells(m.auction, p.auction) {
        assert PairOf(m) == p;
      }
    }
    forall m | m in Items(n.matches) ensures PairOf(m) in r.matches {
    }
    forall id ensures id in r.lost + (set p | p in r.matches :: p.lost) <==> AsksForLost(n, id) {
      if m :| m in Items(n.matches) && m.MatchItem? && Spells(m.lost, id) {
        assert PairOf(m) in r.matches;
      }
    }
    forall id ensures id in r.auction + (set p | p in r.matches :: p.auction) <==> AsksForAuction(n, id) {
      if m :| m in Items(n.matches) && m.MatchItem? && Spells(m.auction, id) {
        assert PairOf(m) in r.matches;
      }
    }
  }

  /** An accepted acknowledgement adds exactly the identifiers its items name. */
  lemma RequestsWhatIsAsked(c: Catalog, n: Needed, page: Option<Hashes>)
    requires RecordNeeded(c, n, page).Ok?
    ensures AddsWhatIsAsked(c, n, RecordNeeded(c, n, page).value)
  {
    hide AsksForMatch, AsksForLost, AsksForAuction, WellFormed, Uuids, UuidPairs;
    ParsedItems(n);
    hide ParseNeeded, ValidateNeeded;
  }

  // --------------------------------------------------------------- Verification

  datatype Expected = Expected(matches: set<Pair>, lost: set<Id>, auction: set<Id>)

  predicate Agrees<K(==), V(==)>(actual: map<K, V>, advertised: map<K, V>) {
    forall k :: k in actual ==> k in advertised && advertised[k] == actual[k]
  }

  predicate Verified(c: Catalog, h: Hashes, e: Expected) {
    && h.matches.Keys == e.matches && h.lost.Keys == e.lost && h.auction.Keys == e.auction
    && Agrees(h.matches, c.advertised.matches)
    && Agrees(h.lost, c.advertised.lost)
    && Agrees(h.auction, c.advertised.auction)
  }

  // ------------------------------------------------------------------ Iteration

  function RequestedInOrder(c: Catalog): (r: seq<Pair>)
    ensures Ordered(PairBefore, r)
    ensures forall p :: p in r <==> p in c.requestedMatches
  {
    Sorted(PairBefore, c.requestedMatches)
  }

  /** Requested artworks that no requested match brings along. */
  function ExtraLost(c: Catalog): (r: seq<Id>)
    ensures forall x :: x in r <==> x in c.requestedLost && forall p :: p in c.requestedMatches ==> p.lost != x
    ensures Ordered((a: Id, b: Id) => a < b, r)
  {
    Sorted((a: Id, b: Id) => a < b, c.requestedLost - set p | p in c.requestedMatches :: p.lost)
  }

  function ExtraAuction(c: Catalog): (r: seq<Id>)
    ensures forall x :: x in r <==> x in c.requestedAuction && forall p :: p in c.requestedMatches ==> p.auction != x
    ensures Ordered((a: Id, b: Id) => a < b, r)
  {
    Sorted((a: Id, b: Id) => a < b, c.requestedAuction - set p | p in c.requestedMatches :: p.auction)
  }

  /** A requested artwork of its own, as the data phase handles it. */
  datatype Entity = LostEntity(id: Id) | AuctionEntity(id: Id)

  function LostEntities(ids: seq<Id>): seq<Entity> {
    seq(|ids|, i requires 0 <= i < |ids| => LostEntity(ids[i]))
  }

  function AuctionEntities(ids: seq<Id>): seq<Entity> {
    seq(|ids|, i requires 0 <= i < |ids| => AuctionEntity(ids[i]))
  }

  // ------------------------------------------------------------------ The class

  class SyncCatalog {
    const budget: WorkspaceBudget
    var advertisedMatches: map<Pair, Digest>
    var advertisedLost: map<Id, Digest>
    var advertisedAuction: map<Id, Digest>
    var requestedMatches: set<Pair>
    var requestedLost: set<Id>
    var requestedAuction: set<Id>

    ghost function View(): Catalog
      reads this
    {
      Catalog(Hashes(advertisedMatches, advertisedLost, advertisedAuction),
              requestedMatches, requestedLost, requestedAuction)
    }

    /** Creates the empty tables, and accounts for the new file. */
    constructor (budget: WorkspaceBudget)
      modifies budget, budget.disk`commits, budget.disk`catalogBytes
      ensures this.budget == budget && View() == EMPTY_CATALOG
      ensures old(budget.usedBytes == budget.disk.Size()) ==> budget.Accounted()
      ensures budget.pageCount == old(budget.pageCount)
    {
      this.budget := budget;
      advertisedMatches, advertisedLost, advertisedAuction := map[], map[], map[];
      requestedMatches, requestedLost, requestedAuction := {}, {}, {};
      new;
      budget.TrackCatalog();
      budget.disk.CommitCatalog();
      budget.RefreshCatalog();
    }

    method Record(page: Hashes)
      modifies this, budget`usedBytes, budget`trackedCatalogBytes, budget.disk`commits, budget.disk`catalogBytes
      ensures View() == RecordInventory(old(View()), page)
      ensures old(budget.Accounted()) ==> budget.Accounted()
    {
      advertisedMatches := page.matches + advertisedMatches;
      advertisedLost := page.lost + advertisedLost;
      advertisedAuction := page.auction + advertisedAuction;
      budget.disk.CommitCatalog();
      budget.RefreshCatalog();
    }

    /** A rejected acknowledgement leaves every table as it was. */
    method Request(needed: Needed, page: Option<Hashes>) returns (e: Option<SyncError>)
      modifies this, budget`usedBytes, budget`trackedCatalogBytes, budget.disk`commits, budget.disk`catalogBytes
      ensures match RecordNeeded(old(View()), needed, page)
              case Ok(c) => e.None? && View() == c
              case Err(x) => e == Some(x) && View() == old(View())
      ensures e.None? ==> AddsWhatIsAsked(old(View()), needed, View())
      ensures old(budget.Accounted()) ==> budget.Accounted()
    {
      ghost var before := View();
      if page.Some? {
        var rejected := ValidateNeeded(needed, page.value);
        if rejected.Some? {
          return rejected;
        }
      }
      var parsed := ParseNeeded(needed);
      if parsed.Err? {
        return Some(parsed.error);
      }
      var r := parsed.value;
      if page.None? && !(r.matches <= advertisedMatches.Keys && r.lost <= advertisedLost.Keys
                         && r.auction <= advertisedAuction.Keys) {
        return Some(ProtocolViolation);
      }
      requestedMatches := requestedMatches + r.matches;
      requestedLost := requestedLost + r.lost + (set p | p in r.matches :: p.lost);
      requestedAuction := requestedAuction + r.auction + (set p | p in r.matches :: p.auction);
      RequestsWhatIsAsked(before, needed, page);
      budget.disk.CommitCatalog();
      budget.RefreshCatalog();
      return None;
    }

    method VerifyContent(h: Hashes, e: Expected) returns (failed: Option<SyncError>)
      ensures failed == if Verified(View(), h, e) then None else Some(SnapshotChanged)
    {
      if h.matches.Keys != e.matches || h.lost.Keys != e.lost || h.auction.Keys != e.auction {
        return Some(SnapshotChanged);
      }
      if !Agrees(h.matches, advertisedMatches) {
        return Some(SnapshotChanged);
      }
      if !Agrees(h.lost, advertisedLost) || !Agrees(h.auction, advertisedAuction) {
        return Some(SnapshotChanged);
      }
      return None;
    }

    method IterRequestedMatches(batchSize: nat) returns (batches: seq<seq<Pair>>)
      requires batchSize > 0
      ensures batches == Chunks(RequestedInOrder(View()), batchSize)
      ensures forall i :: 0 <= i < |batches| - 1 ==> |batches[i]| == batchSize
    {
      ChunksAreFull(RequestedInOrder(View()), batchSize);
      batches := Chunks(Sorted(PairBefore, requestedMatches), batchSize);
    }

    method IterExtraLost(batchSize: nat) returns (batches: seq<seq<Entity>>)
      requires batchSize > 0
      ensures batches == Chunks(LostEntities(ExtraLost(View())), batchSize)
      ensures forall i :: 0 <= i < |batches| - 1 ==> |batches[i]| == batchSize
    {
      ChunksAreFull(LostEntities(ExtraLost(View())), batchSize);
      var ids := Sorted((a: Id, b: Id) => a < b, requestedLost - set p | p in requestedMatches :: p.lost);
      batches := Chunks(LostEntities(ids), batchSize);
    }

    method IterExtraAuction(batchSize: nat) returns (batches: seq<seq<Entity>>)
      requires batchSize > 0
      ensures batches == Chunks(AuctionEntities(ExtraAuction(View())), batchSize)
      ensures forall i :: 0 <= i < |batches| - 1 ==> |batches[i]| == batchSize
    {
      ChunksAreFull(AuctionEntities(ExtraAuction(View())), batchSize);
      var ids := Sorted((a: Id, b: Id) => a < b, requestedAuction - set p | p in requestedMatches :: p.auction);
      batches := Chunks(AuctionEntities(ids), batchSize);
    }
  }

  // ------------------------------------------------- Invariant over every history

  datatype Call = RecordInventoryCall(page: Hashes) | RecordNeededCall(needed: Needed, acknowledged: Option<Hashes>)

  /** A rejected call changes nothing. */
  function Apply(c: Catalog, call: Call): Catalog {
    match call
    case RecordInventoryCall(page) => RecordInventory(c, page)
    case RecordNeededCall(n, page) => (match RecordNeeded(c, n, page) case Ok(d) => d case Err(_) => c)
  }

  function ApplyAll(c: Catalog, calls: seq<Call>): Catalog
    decreases |calls|
  {
    if calls == [] then c else ApplyAll(Apply(c, calls[0]), calls[1..])
  }

  /** Every inventory page lists the endpoints of the pairs it lists. */
  predicate EndpointsListed(page: Hashes) {
    forall p :: p in page.matches ==> p.lost in page.lost && p.auction in page.auction
  }

  predicate Recorded(c: Catalog, page: Hashes) {
    && page.matches.Keys <= c.advertised.matches.Keys
    && page.lost.Keys <= c.advertised.lost.Keys
    && page.auction.Keys <= c.advertised.auction.Keys
  }

  /** How the delivery phase calls the catalog: a page is recorded before it is acknowledged. */
  predicate Disciplined(c: Catalog, calls: seq<Call>)
    decreases |calls|
  {
    calls == [] || (
      && (match calls[0]
          case RecordInventoryCall(page) => EndpointsListed(page)
          case RecordNeededCall(_, page) => page.Some? ==> Recorded(c, page.value))
      && Disciplined(Apply(c, calls[0]), calls[1..]))
  }

  ghost predicate CatalogInvariant(c: Catalog) {
    && EndpointsListed(c.advertised)
    && c.requestedMatches <= c.advertised.matches.Keys
    && c.requestedLost <= c.advertised.lost.Keys
    && c.requestedAuction <= c.advertised.auction.Keys
    && (forall p :: p in c.requestedMatches ==> p.lost in c.requestedLost && p.auction in c.requestedAuction)
  }

  /** Every item is spelled as in the inventory page, and on it. */
  predicate NamesOnly(n: Needed, page: Hashes)
    requires n.Needed?
  {
    && (forall m :: m in Items(n.matches) ==>
          m.MatchItem? && m.lost.Canonical? && m.auction.Canonical? && Pair(m.lost.id, m.auction.id) in page.matches)
    && (forall r :: r in Items(n.lost) ==> r.Canonical? && r.id in page.lost)
    && (forall r :: r in Items(n.auction) ==> r.Canonical? && r.id in page.auction)
  }

  /** Every item is a UUID, in any spelling, and advertised. */
  predicate NamesAdvertised(n: Needed, c: Catalog)
    requires n.Needed?
  {
    && (forall m :: m in Items(n.matches) ==>
          m.MatchItem? && !m.lost.NotUuid? && !m.auction.NotUuid? && Pair(m.lost.id, m.auction.id) in c.advertised.matches)
    && (forall r :: r in Items(n.lost) ==> !r.NotUuid? && r.id in c.advertised.lost)
    && (forall r :: r in Items(n.auction) ==> !r.NotUuid? && r.id in c.advertised.auction)
  }

  /** Which acknowledgements are accepted: against one page by the letter, against the whole inventory by identifier. */
  lemma AcceptedRequests(c: Catalog, n: Needed, page: Option<Hashes>)
    ensures RecordNeeded(c, n, page).Ok? <==>
              && n.Needed? && !n.unknownFields
              && n.matches != NotArray && n.lost != NotArray && n.auction != NotArray
              && if page.Some? then NamesOnly(n, page.value) else NamesAdvertised(n, c)
  {
    if ParseNeeded(n).Ok? {
      var r := ParseNeeded(n).value;
      assert forall m :: m in Items(n.matches) ==> PairOf(m) in r.matches;
      assert forall x :: x in Items(n.lost) ==> x.id in r.lost;
      assert forall x :: x in Items(n.auction) ==> x.id in r.auction;
    }
  }

  lemma ApplyKeepsInvariant(c: Catalog, call: Call)
    requires CatalogInvariant(c) && Disciplined(c, [call])
    ensures CatalogInvariant(Apply(c, call))
  {
  }

  /** The catalog invariant holds after any disciplined history of calls. */
  lemma {:induction false} HistoryKeepsInvariant(c: Catalog, calls: seq<Call>)
    requires CatalogInvariant(c) && Disciplined(c, calls)
    ensures CatalogInvariant(ApplyAll(c, calls))
    decreases |calls|
  {
    if calls != [] {
      assert Disciplined(c, [calls[0]]);
      ApplyKeepsInvariant(c, calls[0]);
      HistoryKeepsInvariant(Apply(c, calls[0]), calls[1..]);
    }
  }

  /** Recording a page again, after any further history, changes nothing. */
  lemma {:induction false} ReRecordingIsIdempotent(c: Catalog, page: Hashes, calls: seq<Call>)
    ensures var d := ApplyAll(RecordInventory(c, page), calls); RecordInventory(d, page) == d
    decreases |calls|
  {
    AlreadyRecorded(RecordInventory(c, page), page, calls);
  }

  lemma {:induction false} AlreadyRecorded(c: Catalog, page: Hashes, calls: seq<Call>)
    requires Recorded(c, page)
    ensures RecordInventory(ApplyAll(c, calls), page) == ApplyAll(c, calls)
    decreases |calls|
  {
    if calls == [] {
      assert page.matches + c.advertised.matches == c.advertised.matches;
      assert page.lost + c.advertised.lost == c.advertised.lost;
      assert page.auction + c.advertised.auction == c.advertised.auction;
    } else {
      AlreadyRecorded(Apply(c, calls[0]), page, calls[1..]);
    }
  }
}
