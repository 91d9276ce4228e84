/**
  Replication closures and their hashes (telemetry/sync_graph.py, sync_queries.py).

  A snapshot is the database seen by one repeatable-read transaction. The
  canonical hash is idealised as an injective one: a digest carries the value
  it was computed from.
*/
module SyncGraph {
  import opened Artworks
  import opened Results
  import opened Tables
  import opened SyncBudget

  /** Rows reference other rows by id; `data` stands for the remaining columns. */
  datatype Plain = Plain(data: nat)
  datatype Artist = Artist(birthPlace: Option<Id>, deathPlace: Option<Id>, data: nat)
  datatype Literature = Literature(publishingLocation: Option<Id>, data: nat)
  datatype StoredImage = StoredImage(data: nat, contentSha256: nat)
  datatype Lost = Lost(artists: seq<Id>, institution: Option<Id>, literature: Option<Id>, data: nat)
  datatype Auction = Auction(
    artist: Option<Id>, birthPlace: Option<Id>, deathPlace: Option<Id>,
    platform: Option<Id>, auctioneer: Option<Id>, expert: Option<Id>, data: nat)
  datatype Link = Link(image: Option<Id>, data: nat)
  datatype Match = Match(metadataProgram: Option<Id>, imageProgram: Option<Id>, bestImage: Option<Id>, data: nat)

  /** Every table but `match_score`; link tables are keyed by artwork. */
  datatype Graph = Graph(
    locations: seq<Rec<Id, Plain>>,
    artists: seq<Rec<Id, Artist>>,
    institutions: seq<Rec<Id, Plain>>,
    literature: seq<Rec<Id, Literature>>,
    platforms: seq<Rec<Id, Plain>>,
    auctioneers: seq<Rec<Id, Plain>>,
    experts: seq<Rec<Id, Plain>>,
    programs: seq<Rec<Id, Plain>>,
    images: seq<Rec<Id, Plain>>,
    lost: seq<Rec<Id, Lost>>,
    auction: seq<Rec<Id, Auction>>,
    lostLinks: seq<Rec<Id, Link>>,
    auctionLinks: seq<Rec<Id, Link>>)

  /** `graph.images` is what the queries show of `image_file`: the processed-file digest is left out. */
  datatype Snapshot = Snapshot(
    graph: Graph,
    storedImages: seq<Rec<Id, StoredImage>>,
    matches: seq<Rec<Pair, Match>>)

  function WireImages(stored: seq<Rec<Id, StoredImage>>): seq<Rec<Id, Plain>> {
    seq(|stored|, i requires 0 <= i < |stored| => Rec(stored[i].key, Plain(stored[i].row.data), stored[i].bytes))
  }

  /** The tables as the sender's queries present them. */
  function Visible(s: Snapshot): Graph {
    s.graph.(images := WireImages(s.storedImages))
  }

  // ------------------------------------------------------------- Referenced ids

  function IdOf(o: Option<Id>): set<Id> {
    if o.None? then {} else {o.value}
  }

  function ArtistsOf(lost: seq<Rec<Id, Lost>>): set<Id> {
    set x, a | x in lost && a in x.row.artists :: a
  }

  function Places(artists: seq<Rec<Id, Artist>>): set<Id> {
    set x, a | x in artists && a in IdOf(x.row.birthPlace) + IdOf(x.row.deathPlace) :: a
  }

  function PublishingPlaces(literature: seq<Rec<Id, Literature>>): set<Id> {
    set x, a | x in literature && a in IdOf(x.row.publishingLocation) :: a
  }

  function LinkedImages(links: seq<Rec<Id, Link>>): set<Id> {
    set x, a | x in links && a in IdOf(x.row.image) :: a
  }

  /** The ids some column of `t` refers to (`_values`). */
  function Values<R(==)>(t: seq<Rec<Id, R>>, column: R -> Option<Id>): set<Id> {
    set x, a | x in t && a in IdOf(column(x.row)) :: a
  }

  function ProgramsOf(m: Match): set<Id> {
    IdOf(m.metadataProgram) + IdOf(m.imageProgram)
  }

  // ------------------------------------------------------------ Closures, hashes

  datatype LostClosure = LostClosure(
    artwork: Rec<Id, Lost>,
    artists: seq<Rec<Id, Artist>>,
    institutions: seq<Rec<Id, Plain>>,
    literature: seq<Rec<Id, Literature>>,
    locations: seq<Rec<Id, Plain>>,
    links: seq<Rec<Id, Link>>,
    images: seq<Rec<Id, Plain>>)

  datatype AuctionClosure = AuctionClosure(
    artwork: Rec<Id, Auction>,
    artists: seq<Rec<Id, Artist>>,
    locations: seq<Rec<Id, Plain>>,
    platforms: seq<Rec<Id, Plain>>,
    auctioneers: seq<Rec<Id, Plain>>,
    experts: seq<Rec<Id, Plain>>,
    links: seq<Rec<Id, Link>>,
    images: seq<Rec<Id, Plain>>)

  datatype MatchClosure = MatchClosure(
    score: Rec<Pair, Match>,
    programs: seq<Rec<Id, Plain>>,
    bestImage: seq<Rec<Id, Plain>>)

  datatype Digest =
    | LostDigest(lost: LostClosure)
    | AuctionDigest(auction: AuctionClosure)
    | MatchDigest(score: MatchClosure)

  function LostClosureIn(g: Graph, artwork: Rec<Id, Lost>): LostClosure {
    var links := Select(g.lostLinks, {artwork.key});
    var artists := Select(g.artists, set a | a in artwork.row.artists);
    var literature := Select(g.literature, IdOf(artwork.row.literature));
    LostClosure(
      artwork, artists,
      Select(g.institutions, IdOf(artwork.row.institution)),
      literature,
      Select(g.locations, Places(artists) + PublishingPlaces(literature)),
      links,
      Select(g.images, LinkedImages(links)))
  }

  function AuctionClosureIn(g: Graph, artwork: Rec<Id, Auction>): AuctionClosure {
    var links := Select(g.auctionLinks, {artwork.key});
    var artists := Select(g.artists, IdOf(artwork.row.artist));
    AuctionClosure(
      artwork, artists,
      Select(g.locations, IdOf(artwork.row.birthPlace) + IdOf(artwork.row.deathPlace) + Places(artists)),
      Select(g.platforms, IdOf(artwork.row.platform)),
      Select(g.auctioneers, IdOf(artwork.row.auctioneer)),
      Select(g.experts, IdOf(artwork.row.expert)),
      links,
      Select(g.images, LinkedImages(links)))
  }

  function MatchClosureIn(g: Graph, score: Rec<Pair, Match>): MatchClosure {
    MatchClosure(score, Select(g.programs, ProgramsOf(score.row)), Select(g.images, IdOf(score.row.bestImage)))
  }

  datatype Hashes = Hashes(matches: map<Pair, Digest>, lost: map<Id, Digest>, auction: map<Id, Digest>)

  const NO_HASHES := Hashes(map[], map[], map[])

  /** One data page's payload: the loaded part of the graph, the score rows and their hashes. */
  datatype Content = Content(graph: Graph, matches: map<Pair, Rec<Pair, Match>>, hashes: Hashes)

  /** `{_match_key(row): row for row in match_rows}`: a later row with the same key wins. */
  function MatchDict(rows: seq<Rec<Pair, Match>>): (m: map<Pair, Rec<Pair, Match>>)
    ensures m.Keys == Keys(rows)
    ensures forall k :: k in m ==> m[k] in rows && m[k].key == k
  {
    if rows == [] then map[]
    else
      var last := rows[|rows| - 1];
      var m := MatchDict(rows[..|rows| - 1]);
      assert rows == rows[..|rows| - 1] + [last];
      m[last.key := last]
  }

  function LostHashes(g: Graph, lost: seq<Rec<Id, Lost>>): map<Id, Digest> {
    if lost == [] then map[]
    else
      var last := lost[|lost| - 1];
      LostHashes(g, lost[..|lost| - 1])[last.key := LostDigest(LostClosureIn(g, last))]
  }

  function AuctionHashes(g: Graph, auction: seq<Rec<Id, Auction>>): map<Id, Digest> {
    if auction == [] then map[]
    else
      var last := auction[|auction| - 1];
      AuctionHashes(g, auction[..|auction| - 1])[last.key := AuctionDigest(AuctionClosureIn(g, last))]
  }

  function GraphHashes(g: Graph, matches: map<Pair, Rec<Pair, Match>>): Hashes {
    Hashes(
      map k | k in matches :: MatchDigest(MatchClosureIn(g, matches[k])),
      LostHashes(g, g.lost),
      AuctionHashes(g, g.auction))
  }

  // ------------------------------------------------------------- Closure loading

  function ArtistIds(lost: seq<Rec<Id, Lost>>, auction: seq<Rec<Id, Auction>>): set<Id> {
    ArtistsOf(lost) + Values(auction, (r: Auction) => r.artist)
  }

  function LocationIds(
    auction: seq<Rec<Id, Auction>>, artists: seq<Rec<Id, Artist>>, literature: seq<Rec<Id, Literature>>): set<Id>
  {
    Values(auction, (r: Auction) => r.birthPlace) + Values(auction, (r: Auction) => r.deathPlace)
    + Places(artists) + PublishingPlaces(literature)
  }

  function ProgramIds(rows: seq<Rec<Pair, Match>>): set<Id> {
    set x, a | x in rows && a in ProgramsOf(x.row) :: a
  }

  function ImageIds(lostLinks: seq<Rec<Id, Link>>, auctionLinks: seq<Rec<Id, Link>>, rows: seq<Rec<Pair, Match>>): set<Id> {
    LinkedImages(lostLinks) + LinkedImages(auctionLinks) + (set x, a | x in rows && a in IdOf(x.row.bestImage) :: a)
  }

  function LostIds(rows: seq<Rec<Pair, Match>>): set<Id> {
    set x | x in rows :: x.key.lost
  }

  function AuctionIds(rows: seq<Rec<Pair, Match>>): set<Id> {
    set x | x in rows :: x.key.auction
  }

  /** The closure `_build_data_content` loads for one batch. */
  function LoadGraph(s: Snapshot, rows: seq<Rec<Pair, Match>>, extraLost: set<Id>, extraAuction: set<Id>): Graph {
    var v := Visible(s);
    var lost := Select(v.lost, LostIds(rows) + extraLost);
    var auction := Select(v.auction, AuctionIds(rows) + extraAuction);
    var artists := Select(v.artists, ArtistIds(lost, auction));
    var literature := Select(v.literature, Values(lost, (r: Lost) => r.literature));
    var lostLinks := Select(v.lostLinks, LostIds(rows) + extraLost);
    var auctionLinks := Select(v.auctionLinks, AuctionIds(rows) + extraAuction);
    Graph(
      Select(v.locations, LocationIds(auction, artists, literature)),
      artists,
      Select(v.institutions, Values(lost, (r: Lost) => r.institution)),
      literature,
      Select(v.platforms, Values(auction, (r: Auction) => r.platform)),
      Select(v.auctioneers, Values(auction, (r: Auction) => r.auctioneer)),
      Select(v.experts, Values(auction, (r: Auction) => r.expert)),
      Select(v.programs, ProgramIds(rows)),
      Select(v.images, ImageIds(lostLinks, auctionLinks, rows)),
      lost,
      auction,
      lostLinks,
      auctionLinks)
  }

  function BuildContent(s: Snapshot, rows: seq<Rec<Pair, Match>>, extraLost: set<Id>, extraAuction: set<Id>): Content {
    var g := LoadGraph(s, rows, extraLost, extraAuction);
    var matches := MatchDict(rows);
    Content(g, matches, GraphHashes(g, matches))
  }

  /** What the thirteen size probes of one closure debit in total. */
  function ClosureCost(g: Graph): nat {
    Cost(g.lost) + Cost(g.auction) + Cost(g.artists) + Cost(g.institutions) + Cost(g.literature)
    + Cost(g.platforms) + Cost(g.auctioneers) + Cost(g.experts) + Cost(g.programs) + Cost(g.locations)
    + Cost(g.lostLinks) + Cost(g.auctionLinks) + Cost(g.images)
  }

  // ------------------------------------------------------------ Budgeted loading

  /** One size probe, then one fetch; nothing is asked for an empty id set. */
  method FetchTable<K(==, !new), R(!new)>(t: seq<Rec<K, R>>, ids: set<K>, budget: MaterializationBudget)
    returns (r: Option<seq<Rec<K, R>>>)
    modifies budget
    ensures r.Some? ==> r.value == Select(t, ids) && budget.estimatedBytes == old(budget.estimatedBytes) + Cost(Select(t, ids))
    ensures r.Some? && old(budget.estimatedBytes) <= budget.maxBytes ==> budget.estimatedBytes <= budget.maxBytes
    ensures r.None? ==> old(budget.estimatedBytes) + Cost(Select(t, ids)) > budget.maxBytes
  {
    if ids == {} {
      SelectNone(t, ids);
      return Some([]);
    }
    var rows := Select(t, ids);
    var ok := budget.Reserve(TotalBytes(rows), |rows|);
    return if ok then Some(rows) else None;
  }

  /** `None` is the materialisation limit: raised exactly when the closure does not fit the budget. */
  method BuildDataContent(
    s: Snapshot, rows: seq<Rec<Pair, Match>>, extraLost: set<Id>, extraAuction: set<Id>, budget: MaterializationBudget)
    returns (r: Option<Content>)
    requires budget.estimatedBytes <= budget.maxBytes
    modifies budget
    ensures r.Some? <==>
              old(budget.estimatedBytes) + ClosureCost(LoadGraph(s, rows, extraLost, extraAuction)) <= budget.maxBytes
    ensures r.Some? ==> r.value == BuildContent(s, rows, extraLost, extraAuction)
  {
    var v := Visible(s);
    ghost var g := LoadGraph(s, rows, extraLost, extraAuction);
    var lost :- FetchTable(v.lost, LostIds(rows) + extraLost, budget);
    var auction :- FetchTable(v.auction, AuctionIds(rows) + extraAuction, budget);
    var artists :- FetchTable(v.artists, ArtistIds(lost, auction), budget);
    var institutions :- FetchTable(v.institutions, Values(lost, (r: Lost) => r.institution), budget);
    var literature :- FetchTable(v.literature, Values(lost, (r: Lost) => r.literature), budget);
    var platforms :- FetchTable(v.platforms, Values(auction, (r: Auction) => r.platform), budget);
    var auctioneers :- FetchTable(v.auctioneers, Values(auction, (r: Auction) => r.auctioneer), budget);
    var experts :- FetchTable(v.experts, Values(auction, (r: Auction) => r.expert), budget);
    var programs :- FetchTable(v.programs, ProgramIds(rows), budget);
    var locations :- FetchTable(v.locations, LocationIds(auction, artists, literature), budget);
    var lostLinks :- FetchTable(v.lostLinks, LostIds(rows) + extraLost, budget);
    var auctionLinks :- FetchTable(v.auctionLinks, AuctionIds(rows) + extraAuction, budget);
    var images :- FetchTable(v.images, ImageIds(lostLinks, auctionLinks, rows), budget);
    var loaded := Graph(
      locations, artists, institutions, literature, platforms, auctioneers, experts, programs, images,
      lost, auction, lostLinks, auctionLinks);
    var hashes := ReplicationGraphHashes(loaded, MatchDict(rows));
    return Some(Content(loaded, MatchDict(rows), hashes));
  }

  method HashLostArtworks(g: Graph) returns (h: map<Id, Digest>)
    ensures h == LostHashes(g, g.lost)
  {
    h := map[];
    for i := 0 to |g.lost|
      invariant h == LostHashes(g, g.lost[..i])
    {
      assert g.lost[..i + 1][..i] == g.lost[..i];
      h := h[g.lost[i].key := LostDigest(LostClosureIn(g, g.lost[i]))];
    }
    assert g.lost[..|g.lost|] == g.lost;
  }

  method HashAuctionArtworks(g: Graph) returns (h: map<Id, Digest>)
    ensures h == AuctionHashes(g, g.auction)
  {
    h := map[];
    for i := 0 to |g.auction|
      invariant h == AuctionHashes(g, g.auction[..i])
    {
      assert g.auction[..i + 1][..i] == g.auction[..i];
      h := h[g.auction[i].key := AuctionDigest(AuctionClosureIn(g, g.auction[i]))];
    }
    assert g.auction[..|g.auction|] == g.auction;
  }

  method HashMatches(g: Graph, matches: map<Pair, Rec<Pair, Match>>) returns (h: map<Pair, Digest>)
    ensures h == map k | k in matches :: MatchDigest(MatchClosureIn(g, matches[k]))
  {
    h := map[];
    var pending := matches.Keys;
    while pending != {}
      invariant pending <= matches.Keys
      invariant h.Keys == matches.Keys - pending
      invariant forall k :: k in h ==> h[k] == MatchDigest(MatchClosureIn(g, matches[k]))
    {
      var k :| k in pending;
      pending := pending - {k};
      h := h[k := MatchDigest(MatchClosureIn(g, matches[k]))];
    }
  }

  method ReplicationGraphHashes(g: Graph, matches: map<Pair, Rec<Pair, Match>>) returns (h: Hashes)
    ensures h == GraphHashes(g, matches)
  {
    var lost := HashLostArtworks(g);
    var auction := HashAuctionArtworks(g);
    var scores := HashMatches(g, matches);
    return Hashes(scores, lost, auction);
  }

  // ----------------------------------------------------- Batch independence

  lemma {:induction false} LostHashesAt(g: Graph, lost: seq<Rec<Id, Lost>>)
    ensures LostHashes(g, lost).Keys == Keys(lost)
    ensures forall k :: k in LostHashes(g, lost) ==>
              exists x :: x in lost && x.key == k && LostHashes(g, lost)[k] == LostDigest(LostClosureIn(g, x))
  {
    if lost != [] {
      LostHashesAt(g, lost[..|lost| - 1]);
      assert lost == lost[..|lost| - 1] + [lost[|lost| - 1]];
    }
  }

  lemma {:induction false} AuctionHashesAt(g: Graph, auction: seq<Rec<Id, Auction>>)
    ensures AuctionHashes(g, auction).Keys == Keys(auction)
    ensures forall k :: k in AuctionHashes(g, auction) ==>
              exists x :: x in auction && x.key == k && AuctionHashes(g, auction)[k] == AuctionDigest(AuctionClosureIn(g, x))
  {
    if auction != [] {
      AuctionHashesAt(g, auction[..|auction| - 1]);
      assert auction == auction[..|auction| - 1] + [auction[|auction| - 1]];
    }
  }

  lemma ValuesAt<R(!new)>(t: seq<Rec<Id, R>>, x: Rec<Id, R>, column: R -> Option<Id>)
    requires x in t
    ensures IdOf(column(x.row)) <= Values(t, column)
  {
  }

  /** A batch loads everything a lost artwork's hash looks at, and the hash ignores the rest. */
  lemma LostClosureBatchIndependent(
    s: Snapshot, rows: seq<Rec<Pair, Match>>, extraLost: set<Id>, extraAuction: set<Id>, artwork: Rec<Id, Lost>)
    requires artwork in LoadGraph(s, rows, extraLost, extraAuction).lost
    ensures LostClosureIn(LoadGraph(s, rows, extraLost, extraAuction), artwork) == LostClosureIn(Visible(s), artwork)
  {
    hide Select;
    var g, v := LoadGraph(s, rows, extraLost, extraAuction), Visible(s);
    var links := Select(v.lostLinks, {artwork.key});
    var artists := Select(v.artists, set a | a in artwork.row.artists);
    var literature := Select(v.literature, IdOf(artwork.row.literature));
    assert Select(g.lostLinks, {artwork.key}) == links by {
      SelectSelect(v.lostLinks, LostIds(rows) + extraLost, {artwork.key});
    }
    assert Select(g.artists, set a | a in artwork.row.artists) == artists by {
      SelectSelect(v.artists, ArtistIds(g.lost, g.auction), set a | a in artwork.row.artists);
    }
    assert Select(g.literature, IdOf(artwork.row.literature)) == literature by {
      ValuesAt(g.lost, artwork, (r: Lost) => r.literature);
      SelectSelect(v.literature, Values(g.lost, (r: Lost) => r.literature), IdOf(artwork.row.literature));
    }
    assert Select(g.institutions, IdOf(artwork.row.institution)) == Select(v.institutions, IdOf(artwork.row.institution)) by {
      ValuesAt(g.lost, artwork, (r: Lost) => r.institution);
      SelectSelect(v.institutions, Values(g.lost, (r: Lost) => r.institution), IdOf(artwork.row.institution));
    }
    var places := Places(artists) + PublishingPlaces(literature);
    assert Select(g.locations, places) == Select(v.locations, places) by {
      assert forall x :: x in artists ==> x in g.artists;
      assert forall x :: x in literature ==> x in g.literature;
      SelectSelect(v.locations, LocationIds(g.auction, g.artists, g.literature), places);
    }
    assert Select(g.images, LinkedImages(links)) == Select(v.images, LinkedImages(links)) by {
      assert forall x :: x in links ==> x in g.lostLinks;
      SelectSelect(v.images, ImageIds(g.lostLinks, g.auctionLinks, rows), LinkedImages(links));
    }
  }

  lemma AuctionClosureBatchIndependent(
    s: Snapshot, rows: seq<Rec<Pair, Match>>, extraLost: set<Id>, extraAuction: set<Id>, artwork: Rec<Id, Auction>)
    requires artwork in LoadGraph(s, rows, extraLost, extraAuction).auction
    ensures AuctionClosureIn(LoadGraph(s, rows, extraLost, extraAuction), artwork) == AuctionClosureIn(Visible(s), artwork)
  {
    hide Select;
    var g, v := LoadGraph(s, rows, extraLost, extraAuction), Visible(s);
    var links := Select(v.auctionLinks, {artwork.key});
    var artists := Select(v.artists, IdOf(artwork.row.artist));
    assert Select(g.auctionLinks, {artwork.key}) == links by {
      SelectSelect(v.auctionLinks, AuctionIds(rows) + extraAuction, {artwork.key});
    }
    assert Select(g.artists, IdOf(artwork.row.artist)) == artists by {
      ValuesAt(g.auction, artwork, (r: Auction) => r.artist);
      SelectSelect(v.artists, ArtistIds(g.lost, g.auction), IdOf(artwork.row.artist));
    }
    assert Select(g.platforms, IdOf(artwork.row.platform)) == Select(v.platforms, IdOf(artwork.row.platform)) by {
      ValuesAt(g.auction, artwork, (r: Auction) => r.platform);
      SelectSelect(v.platforms, Values(g.auction, (r: Auction) => r.platform), IdOf(artwork.row.platform));
    }
    assert Select(g.auctioneers, IdOf(artwork.row.auctioneer)) == Select(v.auctioneers, IdOf(artwork.row.auctioneer)) by {
      ValuesAt(g.auction, artwork, (r: Auction) => r.auctioneer);
      SelectSelect(v.auctioneers, Values(g.auction, (r: Auction) => r.auctioneer), IdOf(artwork.row.auctioneer));
    }
    assert Select(g.experts, IdOf(artwork.row.expert)) == Select(v.experts, IdOf(artwork.row.expert)) by {
      ValuesAt(g.auction, artwork, (r: Auction) => r.expert);
      SelectSelect(v.experts, Values(g.auction, (r: Auction) => r.expert), IdOf(artwork.row.expert));
    }
    var places := IdOf(artwork.row.birthPlace) + IdOf(artwork.row.deathPlace) + Places(artists);
    assert Select(g.locations, places) == Select(v.locations, places) by {
      ValuesAt(g.auction, artwork, (r: Auction) => r.birthPlace);
      ValuesAt(g.auction, artwork, (r: Auction) => r.deathPlace);
      assert forall x :: x in artists ==> x in g.artists;
      SelectSelect(v.locations, LocationIds(g.auction, g.artists, g.literature), places);
    }
    assert Select(g.images, LinkedImages(links)) == Select(v.images, LinkedImages(links)) by {
      assert forall x :: x in links ==> x in g.auctionLinks;
      SelectSelect(v.images, ImageIds(g.lostLinks, g.auctionLinks, rows), LinkedImages(links));
    }
  }

  lemma MatchClosureBatchIndependent(
    s: Snapshot, rows: seq<Rec<Pair, Match>>, extraLost: set<Id>, extraAuction: set<Id>, score: Rec<Pair, Match>)
    requires score in rows
    ensures MatchClosureIn(LoadGraph(s, rows, extraLost, extraAuction), score) == MatchClosureIn(Visible(s), score)
  {
    var g, v := LoadGraph(s, rows, extraLost, extraAuction), Visible(s);
    SelectSelect(v.programs, ProgramIds(rows), ProgramsOf(score.row));
    SelectSelect(v.images, ImageIds(g.lostLinks, g.auctionLinks, rows), IdOf(score.row.bestImage));
  }

  /** Reference hashes, straight from the whole snapshot. */
  ghost predicate IsLostHash(s: Snapshot, id: Id, d: Digest) {
    exists x :: x in s.graph.lost && x.key == id && d == LostDigest(LostClosureIn(Visible(s), x))
  }

  ghost predicate IsAuctionHash(s: Snapshot, id: Id, d: Digest) {
    exists x :: x in s.graph.auction && x.key == id && d == AuctionDigest(AuctionClosureIn(Visible(s), x))
  }

  ghost predicate IsMatchHash(s: Snapshot, pair: Pair, d: Digest) {
    exists x :: x in s.matches && x.key == pair && d == MatchDigest(MatchClosureIn(Visible(s), x))
  }

  ghost predicate TrueHashes(s: Snapshot, h: Hashes) {
    && (forall id :: id in h.lost ==> IsLostHash(s, id, h.lost[id]))
    && (forall id :: id in h.auction ==> IsAuctionHash(s, id, h.auction[id]))
    && (forall pair :: pair in h.matches ==> IsMatchHash(s, pair, h.matches[pair]))
  }

  ghost predicate InKeyOrder(t: seq<Rec<Pair, Match>>) {
    forall i, j :: 0 <= i < j < |t| ==> PairBefore(t[i].key, t[j].key)
  }

  /** Primary keys; `match_score` is listed in key order. */
  ghost predicate ValidSnapshot(s: Snapshot) {
    UniqueKeys(s.graph.lost) && UniqueKeys(s.graph.auction) && InKeyOrder(s.matches)
  }

  /**
    Batch independence: whatever else is in the batch, every hash it produces is
    the reference hash of the snapshot. Foreign keys are not needed.
  */
  lemma BatchIndependence(s: Snapshot, rows: seq<Rec<Pair, Match>>, extraLost: set<Id>, extraAuction: set<Id>)
    requires forall x :: x in rows ==> x in s.matches
    ensures TrueHashes(s, BuildContent(s, rows, extraLost, extraAuction).hashes)
    ensures BuildContent(s, rows, extraLost, extraAuction).hashes.matches.Keys == Keys(rows)
    ensures BuildContent(s, rows, extraLost, extraAuction).hashes.lost.Keys
         == Keys(s.graph.lost) * (LostIds(rows) + extraLost)
    ensures BuildContent(s, rows, extraLost, extraAuction).hashes.auction.Keys
         == Keys(s.graph.auction) * (AuctionIds(rows) + extraAuction)
  {
    var c := BuildContent(s, rows, extraLost, extraAuction);
    LostHashesAt(c.graph, c.graph.lost);
    AuctionHashesAt(c.graph, c.graph.auction);
    SelectKeys(s.graph.lost, LostIds(rows) + extraLost);
    SelectKeys(s.graph.auction, AuctionIds(rows) + extraAuction);
    forall id | id in c.hashes.lost ensures IsLostHash(s, id, c.hashes.lost[id]) {
      var x :| x in c.graph.lost && x.key == id && c.hashes.lost[id] == LostDigest(LostClosureIn(c.graph, x));
      LostClosureBatchIndependent(s, rows, extraLost, extraAuction, x);
      assert x in s.graph.lost;
    }
    forall id | id in c.hashes.auction ensures IsAuctionHash(s, id, c.hashes.auction[id]) {
      var x :| x in c.graph.auction && x.key == id && c.hashes.auction[id] == AuctionDigest(AuctionClosureIn(c.graph, x));
      AuctionClosureBatchIndependent(s, rows, extraLost, extraAuction, x);
      assert x in s.graph.auction;
    }
    forall pair | pair in c.hashes.matches ensures IsMatchHash(s, pair, c.hashes.matches[pair]) {
      var x := c.matches[pair];
      MatchClosureBatchIndependent(s, rows, extraLost, extraAuction, x);
      assert x in s.matches;
    }
  }

  lemma LostHashUnique(s: Snapshot, id: Id, a: Digest, b: Digest)
    requires ValidSnapshot(s) && IsLostHash(s, id, a) && IsLostHash(s, id, b)
    ensures a == b
  {
    var x :| x in s.graph.lost && x.key == id && a == LostDigest(LostClosureIn(Visible(s), x));
    var y :| y in s.graph.lost && y.key == id && b == LostDigest(LostClosureIn(Visible(s), y));
    UniqueLookup(s.graph.lost, x, y);
  }

  lemma AuctionHashUnique(s: Snapshot, id: Id, a: Digest, b: Digest)
    requires ValidSnapshot(s) && IsAuctionHash(s, id, a) && IsAuctionHash(s, id, b)
    ensures a == b
  {
    var x :| x in s.graph.auction && x.key == id && a == AuctionDigest(AuctionClosureIn(Visible(s), x));
    var y :| y in s.graph.auction && y.key == id && b == AuctionDigest(AuctionClosureIn(Visible(s), y));
    UniqueLookup(s.graph.auction, x, y);
  }

  lemma MatchHashUnique(s: Snapshot, pair: Pair, a: Digest, b: Digest)
    requires ValidSnapshot(s) && IsMatchHash(s, pair, a) && IsMatchHash(s, pair, b)
    ensures a == b
  {
  }

  /** Two true hash listings of one snapshot never disagree, so `INSERT OR IGNORE` hides nothing. */
  lemma TrueHashesAgree(s: Snapshot, a: Hashes, b: Hashes)
    requires ValidSnapshot(s) && TrueHashes(s, a) && TrueHashes(s, b)
    ensures forall id :: id in a.lost && id in b.lost ==> a.lost[id] == b.lost[id]
    ensures forall id :: id in a.auction && id in b.auction ==> a.auction[id] == b.auction[id]
    ensures forall pair :: pair in a.matches && pair in b.matches ==> a.matches[pair] == b.matches[pair]
  {
    forall id | id in a.lost && id in b.lost ensures a.lost[id] == b.lost[id] {
      LostHashUnique(s, id, a.lost[id], b.lost[id]);
    }
    forall id | id in a.auction && id in b.auction ensures a.auction[id] == b.auction[id] {
      AuctionHashUnique(s, id, a.auction[id], b.auction[id]);
    }
    forall pair | pair in a.matches && pair in b.matches ensures a.matches[pair] == b.matches[pair] {
      MatchHashUnique(s, pair, a.matches[pair], b.matches[pair]);
    }
  }
}
