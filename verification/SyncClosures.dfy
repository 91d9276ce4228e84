/**
  What a replication hash pins down (telemetry/sync_graph.py:169-278), in plain
  rows: an artwork or score, and every row it refers to, directly or through the
  rows between.
*/
module SyncClosures {
  import opened Artworks
  import opened Results
  import opened Tables
  import opened SyncGraph

  /** Both tables have the same rows for `k`. */
  ghost predicate SameRows<K(!new), R(!new)>(s: seq<Rec<K, R>>, t: seq<Rec<K, R>>, k: K) {
    forall x: Rec<K, R> {:trigger x in s} {:trigger x in t} :: x.key == k ==> (x in s <==> x in t)
  }

  ghost predicate SameNamed<R(!new)>(s: seq<Rec<Id, R>>, t: seq<Rec<Id, R>>, o: Option<Id>) {
    o.Some? ==> SameRows(s, t, o.value)
  }

  /** The same artist, born and died in the same places. */
  ghost predicate SameArtist(g: Graph, h: Graph, id: Id) {
    && SameRows(g.artists, h.artists, id)
    && forall a :: a in g.artists && a.key == id ==>
         SameNamed(g.locations, h.locations, a.row.birthPlace) && SameNamed(g.locations, h.locations, a.row.deathPlace)
  }

  /** The same literature, published at the same place. */
  ghost predicate SameLiterature(g: Graph, h: Graph, id: Id) {
    && SameRows(g.literature, h.literature, id)
    && forall l :: l in g.literature && l.key == id ==> SameNamed(g.locations, h.locations, l.row.publishingLocation)
  }

  /** The same links of an artwork, to the same images. */
  ghost predicate SameImages(
    links: seq<Rec<Id, Link>>, others: seq<Rec<Id, Link>>, images: seq<Rec<Id, Plain>>, otherImages: seq<Rec<Id, Plain>>,
    artwork: Id)
  {
    && SameRows(links, others, artwork)
    && forall l :: l in links && l.key == artwork ==> SameNamed(images, otherImages, l.row.image)
  }

  ghost predicate SameAroundLost(g: Graph, h: Graph, x: Rec<Id, Lost>) {
    && (forall a :: a in x.row.artists ==> SameArtist(g, h, a))
    && SameNamed(g.institutions, h.institutions, x.row.institution)
    && (x.row.literature.Some? ==> SameLiterature(g, h, x.row.literature.value))
    && SameImages(g.lostLinks, h.lostLinks, g.images, h.images, x.key)
  }

  ghost predicate SameAroundAuction(g: Graph, h: Graph, x: Rec<Id, Auction>) {
    && (x.row.artist.Some? ==> SameArtist(g, h, x.row.artist.value))
    && SameNamed(g.locations, h.locations, x.row.birthPlace) && SameNamed(g.locations, h.locations, x.row.deathPlace)
    && SameNamed(g.platforms, h.platforms, x.row.platform)
    && SameNamed(g.auctioneers, h.auctioneers, x.row.auctioneer)
    && SameNamed(g.experts, h.experts, x.row.expert)
    && SameImages(g.auctionLinks, h.auctionLinks, g.images, h.images, x.key)
  }

  ghost predicate SameAroundMatch(g: Graph, h: Graph, x: Rec<Pair, Match>) {
    && SameNamed(g.programs, h.programs, x.row.metadataProgram) && SameNamed(g.programs, h.programs, x.row.imageProgram)
    && SameNamed(g.images, h.images, x.row.bestImage)
  }

  // ------------------------------------------------------------- Equal closures

  lemma SameSelected<K(!new), R(!new)>(s: seq<Rec<K, R>>, t: seq<Rec<K, R>>, ids: set<K>, k: K)
    requires Select(s, ids) == Select(t, ids) && k in ids
    ensures SameRows(s, t, k)
  {
    forall x: Rec<K, R> | x.key == k ensures x in s <==> x in t {
      assert x in Select(s, ids) <==> x in s;
      assert x in Select(t, ids) <==> x in t;
    }
  }

  lemma SameSelectedNamed<R(!new)>(s: seq<Rec<Id, R>>, t: seq<Rec<Id, R>>, ids: set<Id>, o: Option<Id>)
    requires Select(s, ids) == Select(t, ids) && (o.Some? ==> o.value in ids)
    ensures SameNamed(s, t, o)
  {
    if o.Some? {
      SameSelected(s, t, ids, o.value);
    }
  }

  lemma SameSelectedArtist(g: Graph, h: Graph, artists: set<Id>, places: set<Id>, id: Id)
    requires Select(g.artists, artists) == Select(h.artists, artists) && id in artists
    requires Select(g.locations, places) == Select(h.locations, places) && Places(Select(g.artists, artists)) <= places
    ensures SameArtist(g, h, id)
  {
    SameSelected(g.artists, h.artists, artists, id);
    forall a | a in g.artists && a.key == id
      ensures SameNamed(g.locations, h.locations, a.row.birthPlace) && SameNamed(g.locations, h.locations, a.row.deathPlace)
    {
      assert a in Select(g.artists, artists);
      PlacesOf(Select(g.artists, artists), a);
      SameSelectedNamed(g.locations, h.locations, places, a.row.birthPlace);
      SameSelectedNamed(g.locations, h.locations, places, a.row.deathPlace);
    }
  }

  lemma PlacesOf(artists: seq<Rec<Id, Artist>>, a: Rec<Id, Artist>)
    requires a in artists
    ensures a.row.birthPlace.Some? ==> a.row.birthPlace.value in Places(artists)
    ensures a.row.deathPlace.Some? ==> a.row.deathPlace.value in Places(artists)
  {
    assert forall p :: p in IdOf(a.row.birthPlace) + IdOf(a.row.deathPlace) ==> p in Places(artists);
    assert a.row.birthPlace.Some? ==> a.row.birthPlace.value in IdOf(a.row.birthPlace) + IdOf(a.row.deathPlace);
    assert a.row.deathPlace.Some? ==> a.row.deathPlace.value in IdOf(a.row.birthPlace) + IdOf(a.row.deathPlace);
  }

  lemma SameSelectedImages(
    links: seq<Rec<Id, Link>>, others: seq<Rec<Id, Link>>, images: seq<Rec<Id, Plain>>, otherImages: seq<Rec<Id, Plain>>,
    artwork: Id)
    requires Select(links, {artwork}) == Select(others, {artwork})
    requires var linked := LinkedImages(Select(links, {artwork})); Select(images, linked) == Select(otherImages, linked)
    ensures SameImages(links, others, images, otherImages, artwork)
  {
    SameSelected(links, others, {artwork}, artwork);
    var linked := LinkedImages(Select(links, {artwork}));
    forall l | l in links && l.key == artwork ensures SameNamed(images, otherImages, l.row.image) {
      assert l in Select(links, {artwork});
      assert IdOf(l.row.image) <= linked;
      SameSelectedNamed(images, otherImages, linked, l.row.image);
    }
  }

  lemma SameSelectedLiterature(g: Graph, h: Graph, places: set<Id>, id: Id)
    requires Select(g.literature, {id}) == Select(h.literature, {id})
    requires Select(g.locations, places) == Select(h.locations, places)
    requires PublishingPlaces(Select(g.literature, {id})) <= places
    ensures SameLiterature(g, h, id)
  {
    SameSelected(g.literature, h.literature, {id}, id);
    forall l | l in g.literature && l.key == id ensures SameNamed(g.locations, h.locations, l.row.publishingLocation) {
      assert l in Select(g.literature, {id});
      assert IdOf(l.row.publishingLocation) <= PublishingPlaces(Select(g.literature, {id}));
      SameSelectedNamed(g.locations, h.locations, places, l.row.publishingLocation);
    }
  }

  /** Equal closures mean the same lost artwork and the same rows for all it refers to. */
  lemma LostClosureDetermines(g: Graph, h: Graph, x: Rec<Id, Lost>, y: Rec<Id, Lost>)
    requires LostClosureIn(g, x) == LostClosureIn(h, y)
    ensures x == y && SameAroundLost(g, h, x)
  {
    hide Select, SameArtist, SameLiterature, SameImages, Places, PublishingPlaces, LinkedImages;
    var artists := set a | a in x.row.artists;
    var places := Places(Select(g.artists, artists)) + PublishingPlaces(Select(g.literature, IdOf(x.row.literature)));
    forall a | a in x.row.artists ensures SameArtist(g, h, a) {
      SameSelectedArtist(g, h, artists, places, a);
    }
    SameSelectedNamed(g.institutions, h.institutions, IdOf(x.row.institution), x.row.institution);
    if x.row.literature.Some? {
      SameSelectedLiterature(g, h, places, x.row.literature.value);
    }
    SameSelectedImages(g.lostLinks, h.lostLinks, g.images, h.images, x.key);
  }

  /** The same for an auction artwork. */
  lemma AuctionClosureDetermines(g: Graph, h: Graph, x: Rec<Id, Auction>, y: Rec<Id, Auction>)
    requires AuctionClosureIn(g, x) == AuctionClosureIn(h, y)
    ensures x == y && SameAroundAuction(g, h, x)
  {
    hide Select, SameArtist, SameImages, Places, LinkedImages;
    var artists := IdOf(x.row.artist);
    var places := IdOf(x.row.birthPlace) + IdOf(x.row.deathPlace) + Places(Select(g.artists, artists));
    if x.row.artist.Some? {
      SameSelectedArtist(g, h, artists, places, x.row.artist.value);
    }
    SameSelectedNamed(g.locations, h.locations, places, x.row.birthPlace);
    SameSelectedNamed(g.locations, h.locations, places, x.row.deathPlace);
    SameSelectedNamed(g.platforms, h.platforms, IdOf(x.row.platform), x.row.platform);
    SameSelectedNamed(g.auctioneers, h.auctioneers, IdOf(x.row.auctioneer), x.row.auctioneer);
    SameSelectedNamed(g.experts, h.experts, IdOf(x.row.expert), x.row.expert);
    SameSelectedImages(g.auctionLinks, h.auctionLinks, g.images, h.images, x.key);
  }

  /** The same for a score. */
  lemma MatchClosureDetermines(g: Graph, h: Graph, x: Rec<Pair, Match>, y: Rec<Pair, Match>)
    requires MatchClosureIn(g, x) == MatchClosureIn(h, y)
    ensures x == y && SameAroundMatch(g, h, x)
  {
    SameSelectedNamed(g.programs, h.programs, ProgramsOf(x.row), x.row.metadataProgram);
    SameSelectedNamed(g.programs, h.programs, ProgramsOf(x.row), x.row.imageProgram);
    SameSelectedNamed(g.images, h.images, IdOf(x.row.bestImage), x.row.bestImage);
  }

  /**
    The page shows, for each of its artworks and scores, the row the snapshot `s`
    has, and for every row it refers to exactly those `s` has.
  */
  ghost predicate CarriesRowsOf(s: Snapshot, content: Content) {
    && (forall x :: x in content.graph.lost ==> x in s.graph.lost && SameAroundLost(content.graph, Visible(s), x))
    && (forall x :: x in content.graph.auction ==> x in s.graph.auction && SameAroundAuction(content.graph, Visible(s), x))
    && (forall k :: k in content.matches ==>
          content.matches[k] in s.matches && SameAroundMatch(content.graph, Visible(s), content.matches[k]))
  }

  // ---------------------------------------------------- What a batch carries besides

  /** The queries show an image file's columns but for the digest of the processed file, and every other table as it is. */
  lemma VisibleRows(s: Snapshot, id: Id, data: nat, bytes: nat)
    ensures Rec(id, Plain(data), bytes) in Visible(s).images <==>
              exists x :: x in s.storedImages && x.key == id && x.row.data == data && x.bytes == bytes
    ensures Visible(s).(images := s.graph.images) == s.graph
  {
    var wire := Visible(s).images;
    if Rec(id, Plain(data), bytes) in wire {
      var i :| 0 <= i < |wire| && wire[i] == Rec(id, Plain(data), bytes);
      assert s.storedImages[i] in s.storedImages;
    }
    if x :| x in s.storedImages && x.key == id && x.row.data == data && x.bytes == bytes {
      var i :| 0 <= i < |s.storedImages| && s.storedImages[i] == x;
      assert wire[i] == Rec(id, Plain(data), bytes);
    }
  }

  ghost predicate LostAsked(rows: seq<Rec<Pair, Match>>, extra: set<Id>, id: Id) {
    id in extra || exists m :: m in rows && m.key.lost == id
  }

  ghost predicate AuctionAsked(rows: seq<Rec<Pair, Match>>, extra: set<Id>, id: Id) {
    id in extra || exists m :: m in rows && m.key.auction == id
  }

  ghost predicate ArtistNeeded(g: Graph, id: Id) {
    (exists x :: x in g.lost && id in x.row.artists) || (exists x :: x in g.auction && x.row.artist == Some(id))
  }

  ghost predicate PlaceNeeded(g: Graph, id: Id) {
    || (exists x :: x in g.auction && Some(id) in {x.row.birthPlace, x.row.deathPlace})
    || (exists x :: x in g.artists && Some(id) in {x.row.birthPlace, x.row.deathPlace})
    || (exists x :: x in g.literature && x.row.publishingLocation == Some(id))
  }

  ghost predicate ImageNeeded(g: Graph, rows: seq<Rec<Pair, Match>>, id: Id) {
    || (exists x :: x in g.lostLinks && x.row.image == Some(id))
    || (exists x :: x in g.auctionLinks && x.row.image == Some(id))
    || (exists x :: x in rows && x.row.bestImage == Some(id))
  }

  /** The batch carries exactly the artworks asked for that there are, with their links. */
  ghost predicate ArtworksLoaded(
    g: Graph, all: Graph, rows: seq<Rec<Pair, Match>>, extraLost: set<Id>, extraAuction: set<Id>)
  {
    && (forall x :: x in g.lost <==> x in all.lost && LostAsked(rows, extraLost, x.key))
    && (forall x :: x in g.lostLinks <==> x in all.lostLinks && LostAsked(rows, extraLost, x.key))
    && (forall x :: x in g.auction <==> x in all.auction && AuctionAsked(rows, extraAuction, x.key))
    && (forall x :: x in g.auctionLinks <==> x in all.auctionLinks && AuctionAsked(rows, extraAuction, x.key))
  }

  /** Besides them it carries exactly the rows something in it refers to. */
  ghost predicate ReferencesLoaded(g: Graph, all: Graph, rows: seq<Rec<Pair, Match>>) {
    && (forall x :: x in g.artists <==> x in all.artists && ArtistNeeded(g, x.key))
    && (forall x :: x in g.locations <==> x in all.locations && PlaceNeeded(g, x.key))
    && (forall x :: x in g.images <==> x in all.images && ImageNeeded(g, rows, x.key))
    && (forall x :: x in g.institutions <==>
          x in all.institutions && exists y :: y in g.lost && y.row.institution == Some(x.key))
    && (forall x :: x in g.literature <==> x in all.literature && exists y :: y in g.lost && y.row.literature == Some(x.key))
    && (forall x :: x in g.platforms <==> x in all.platforms && exists y :: y in g.auction && y.row.platform == Some(x.key))
    && (forall x :: x in g.auctioneers <==>
          x in all.auctioneers && exists y :: y in g.auction && y.row.auctioneer == Some(x.key))
    && (forall x :: x in g.experts <==> x in all.experts && exists y :: y in g.auction && y.row.expert == Some(x.key))
    && (forall x :: x in g.programs <==>
          x in all.programs && exists y :: y in rows && Some(x.key) in {y.row.metadataProgram, y.row.imageProgram})
  }

  lemma LostColumns(t: seq<Rec<Id, Lost>>, id: Id)
    ensures id in Values(t, (r: Lost) => r.institution) <==> exists x :: x in t && x.row.institution == Some(id)
    ensures id in Values(t, (r: Lost) => r.literature) <==> exists x :: x in t && x.row.literature == Some(id)
  {
    if x :| x in t && x.row.institution == Some(id) {
      ValuesAt(t, x, (r: Lost) => r.institution);
    }
    if x :| x in t && x.row.literature == Some(id) {
      ValuesAt(t, x, (r: Lost) => r.literature);
    }
  }

  lemma AuctionColumns(t: seq<Rec<Id, Auction>>, id: Id)
    ensures id in Values(t, (r: Auction) => r.platform) <==> exists x :: x in t && x.row.platform == Some(id)
    ensures id in Values(t, (r: Auction) => r.auctioneer) <==> exists x :: x in t && x.row.auctioneer == Some(id)
    ensures id in Values(t, (r: Auction) => r.expert) <==> exists x :: x in t && x.row.expert == Some(id)
  {
    if x :| x in t && x.row.platform == Some(id) {
      ValuesAt(t, x, (r: Auction) => r.platform);
    }
    if x :| x in t && x.row.auctioneer == Some(id) {
      ValuesAt(t, x, (r: Auction) => r.auctioneer);
    }
    if x :| x in t && x.row.expert == Some(id) {
      ValuesAt(t, x, (r: Auction) => r.expert);
    }
  }

  lemma ArtistColumns(g: Graph, id: Id)
    ensures id in ArtistIds(g.lost, g.auction) <==> ArtistNeeded(g, id)
  {
    if x :| x in g.auction && x.row.artist == Some(id) {
      ValuesAt(g.auction, x, (r: Auction) => r.artist);
    }
    if x :| x in g.lost && id in x.row.artists {
      assert id in ArtistsOf(g.lost);
    }
  }

  lemma PlaceColumns(g: Graph, id: Id)
    ensures id in LocationIds(g.auction, g.artists, g.literature) <==> PlaceNeeded(g, id)
  {
    if x :| x in g.auction && Some(id) in {x.row.birthPlace, x.row.deathPlace} {
      ValuesAt(g.auction, x, (r: Auction) => r.birthPlace);
      ValuesAt(g.auction, x, (r: Auction) => r.deathPlace);
    }
    if x :| x in g.artists && Some(id) in {x.row.birthPlace, x.row.deathPlace} {
      assert id in IdOf(x.row.birthPlace) + IdOf(x.row.deathPlace);
      assert id in Places(g.artists);
    }
    if x :| x in g.literature && x.row.publishingLocation == Some(id) {
      assert id in IdOf(x.row.publishingLocation);
      assert id in PublishingPlaces(g.literature);
    }
  }

  lemma ImageColumns(g: Graph, rows: seq<Rec<Pair, Match>>, id: Id)
    ensures id in ImageIds(g.lostLinks, g.auctionLinks, rows) <==> ImageNeeded(g, rows, id)
  {
    if x :| x in g.lostLinks && x.row.image == Some(id) {
      assert id in IdOf(x.row.image);
      assert id in LinkedImages(g.lostLinks);
    }
    if x :| x in g.auctionLinks && x.row.image == Some(id) {
      assert id in IdOf(x.row.image);
      assert id in LinkedImages(g.auctionLinks);
    }
    if x :| x in rows && x.row.bestImage == Some(id) {
      assert id in IdOf(x.row.bestImage);
    }
  }

  lemma ProgramColumns(rows: seq<Rec<Pair, Match>>, id: Id)
    ensures id in ProgramIds(rows) <==> exists x :: x in rows && Some(id) in {x.row.metadataProgram, x.row.imageProgram}
  {
    if x :| x in rows && Some(id) in {x.row.metadataProgram, x.row.imageProgram} {
      assert id in ProgramsOf(x.row);
    }
  }

  lemma LoadsTheArtworks(s: Snapshot, rows: seq<Rec<Pair, Match>>, extraLost: set<Id>, extraAuction: set<Id>)
    ensures ArtworksLoaded(LoadGraph(s, rows, extraLost, extraAuction), Visible(s), rows, extraLost, extraAuction)
  {
  }

  lemma LoadsTheReferences(s: Snapshot, rows: seq<Rec<Pair, Match>>, extraLost: set<Id>, extraAuction: set<Id>)
    ensures ReferencesLoaded(LoadGraph(s, rows, extraLost, extraAuction), Visible(s), rows)
  {
    hide Values, ArtistIds, LocationIds, ImageIds, ProgramIds, ArtistNeeded, PlaceNeeded, ImageNeeded, Visible, Select;
    var g, v := LoadGraph(s, rows, extraLost, extraAuction), Visible(s);
    forall x: Rec<Id, Artist> ensures x in g.artists <==> x in v.artists && ArtistNeeded(g, x.key) {
      ArtistColumns(g, x.key);
    }
    forall x: Rec<Id, Plain> ensures x in g.locations <==> x in v.locations && PlaceNeeded(g, x.key) {
      PlaceColumns(g, x.key);
    }
    forall x: Rec<Id, Plain> ensures x in g.images <==> x in v.images && ImageNeeded(g, rows, x.key) {
      ImageColumns(g, rows, x.key);
    }
    forall x: Rec<Id, Plain>
      ensures x in g.institutions <==> x in v.institutions && exists y :: y in g.lost && y.row.institution == Some(x.key)
    {
      LostColumns(g.lost, x.key);
    }
    forall x: Rec<Id, Literature>
      ensures x in g.literature <==> x in v.literature && exists y :: y in g.lost && y.row.literature == Some(x.key)
    {
      LostColumns(g.lost, x.key);
    }
    forall x: Rec<Id, Plain>
      ensures x in g.platforms <==> x in v.platforms && exists y :: y in g.auction && y.row.platform == Some(x.key)
    {
      AuctionColumns(g.auction, x.key);
    }
    forall x: Rec<Id, Plain>
      ensures x in g.auctioneers <==> x in v.auctioneers && exists y :: y in g.auction && y.row.auctioneer == Some(x.key)
    {
      AuctionColumns(g.auction, x.key);
    }
    forall x: Rec<Id, Plain>
      ensures x in g.experts <==> x in v.experts && exists y :: y in g.auction && y.row.expert == Some(x.key)
    {
      AuctionColumns(g.auction, x.key);
    }
    forall x: Rec<Id, Plain>
      ensures x in g.programs <==>
                x in v.programs && exists y :: y in rows && Some(x.key) in {y.row.metadataProgram, y.row.imageProgram}
    {
      ProgramColumns(rows, x.key);
    }
  }
}
