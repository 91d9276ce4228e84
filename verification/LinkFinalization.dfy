/**
  Marking processed auction images and rolling the marks up into artwork flags
  (matching_pipeline/image_matching/db_results.py). One SQL statement does both:
  all its parts read the state before the statement (PostgreSQL documentation,
  section 7.8.4), so the roll-up has to count the input's links as already done.
*/
module LinkFinalization {
  import opened Artworks

  datatype LinkKey = LinkKey(artwork: Id, image: Id)

  datatype LinkState = LinkState(processed: bool, withoutError: bool)

  /** Links from artworks to image files, and each artwork's own processed flag. */
  datatype Db = Db(links: map<LinkKey, LinkState>, flagged: map<Id, bool>)

  const DONE := LinkState(true, true)

  predicate Pending(l: LinkState) {
    !l.processed || !l.withoutError
  }

  function LinksOf(db: Db, artwork: Id): set<LinkKey> {
    set k | k in db.links && k.artwork == artwork
  }

  // ------------------------------------------------------------- The statement

  /** `processed_links` */
  function UpdatedLinks(db: Db, input: set<Id>): set<LinkKey> {
    set k | k in db.links && k.image in input && Pending(db.links[k])
  }

  /** `completed_artworks`, from the state before the statement. */
  function CompletedArtworks(db: Db, input: set<Id>): set<Id> {
    set a | a in db.flagged && !db.flagged[a]
            && (LinksOf(db, a) == {} || forall k :: k in LinksOf(db, a) && Pending(db.links[k]) ==> k.image in input)
  }

  /** `completed_empty_artworks` */
  function CompletedEmptyArtworks(db: Db, input: set<Id>): set<Id> {
    set a | a in CompletedArtworks(db, input) && LinksOf(db, a) == {}
  }

  function MarkLinks(links: map<LinkKey, LinkState>, done: set<LinkKey>): map<LinkKey, LinkState> {
    map k | k in links :: if k in done then DONE else links[k]
  }

  function Flag(flagged: map<Id, bool>, done: set<Id>): map<Id, bool> {
    map a | a in flagged :: flagged[a] || a in done
  }

  function Finalize(db: Db, input: set<Id>): Db {
    Db(MarkLinks(db.links, UpdatedLinks(db, input)), Flag(db.flagged, CompletedArtworks(db, input)))
  }

  datatype Counts = Counts(links: nat, artworks: nat, emptyArtworks: nat)

  function CountsOf(db: Db, input: set<Id>): Counts {
    Counts(|UpdatedLinks(db, input)|, |CompletedArtworks(db, input)|, |CompletedEmptyArtworks(db, input)|)
  }

  class LinkTables {
    var links: map<LinkKey, LinkState>
    var flagged: map<Id, bool>

    ghost function View(): Db
      reads this
    {
      Db(links, flagged)
    }

    constructor (links: map<LinkKey, LinkState>, flagged: map<Id, bool>)
      ensures View() == Db(links, flagged)
    {
      this.links, this.flagged := links, flagged;
    }

    /** `_finalize_processed_auction_links`: every part computed before any table is changed. */
    method FinalizeProcessedLinks(imageFileIds: seq<Id>) returns (counts: Counts)
      modifies this
      ensures var input := set i | i in imageFileIds;
              View() == Finalize(old(View()), input) && counts == CountsOf(old(View()), input)
    {
      var before, input := Db(links, flagged), set i | i in imageFileIds;
      var processedLinks := UpdatedLinks(before, input);
      var completed := CompletedArtworks(before, input);
      var completedEmpty := CompletedEmptyArtworks(before, input);
      links := MarkLinks(links, processedLinks);
      flagged := Flag(flagged, completed);
      return Counts(|processedLinks|, |completed|, |completedEmpty|);
    }
  }

  // ------------------------------------------------------ What the state becomes

  /** All links of the artwork are processed without error. */
  predicate Finished(db: Db, artwork: Id) {
    forall k :: k in LinksOf(db, artwork) ==> !Pending(db.links[k])
  }

  lemma LinksAfter(db: Db, input: set<Id>)
    ensures var after := Finalize(db, input);
            && after.links.Keys == db.links.Keys && after.flagged.Keys == db.flagged.Keys
            && (forall a :: LinksOf(after, a) == LinksOf(db, a))
            && (forall k :: k in db.links ==>
                  after.links[k] == if k.image in input then DONE else db.links[k])
  {
  }

  /**
    Although every part reads the state before the statement, afterwards an
    artwork is flagged exactly if it already was or all its links are now
    finished; the input's links are done and no other link has changed.
  */
  lemma FinalizationCharacterised(db: Db, input: set<Id>)
    ensures var after := Finalize(db, input);
            && after.links.Keys == db.links.Keys && after.flagged.Keys == db.flagged.Keys
            && (forall a :: a in db.flagged ==> (after.flagged[a] <==> db.flagged[a] || Finished(after, a)))
            && (forall k :: k in db.links && k.image in input ==> after.links[k] == DONE)
            && (forall k :: k in db.links && k.image !in input ==> after.links[k] == db.links[k])
  {
  }

  /** The counts say what changed: links, newly flagged artworks, and those among them without any link. */
  lemma CountsSayWhatChanged(db: Db, input: set<Id>)
    ensures var after, counts := Finalize(db, input), CountsOf(db, input);
            && counts.links == |set k | k in db.links && after.links[k] != db.links[k]|
            && counts.artworks == |set a | a in db.flagged && after.flagged[a] != db.flagged[a]|
            && counts.emptyArtworks
               == |set a | a in db.flagged && after.flagged[a] != db.flagged[a] && (forall k :: k in db.links ==> k.artwork != a)|
  {
    var after := Finalize(db, input);
    assert UpdatedLinks(db, input) == set k | k in db.links && after.links[k] != db.links[k];
    assert CompletedArtworks(db, input) == set a | a in db.flagged && after.flagged[a] != db.flagged[a];
    assert CompletedEmptyArtworks(db, input)
        == (set a | a in db.flagged && after.flagged[a] != db.flagged[a] && (forall k :: k in db.links ==> k.artwork != a))
    by {
      forall a ensures LinksOf(db, a) == {} <==> (forall k :: k in db.links ==> k.artwork != a) {
        Linkless(db, a);
      }
    }
  }

  lemma Linkless(db: Db, artwork: Id)
    ensures LinksOf(db, artwork) == {} <==> forall k :: k in db.links ==> k.artwork != artwork
  {
    assert forall k :: k in db.links && k.artwork == artwork ==> k in LinksOf(db, artwork);
  }

  // --------------------------------------------------------- Sequential roll-up

  /** First the links; then the artworks, from the updated links. */
  function SequentialRollUp(db: Db, input: set<Id>): Db {
    var marked := db.(links := MarkLinks(db.links, set k | k in db.links && k.image in input));
    marked.(flagged := map a | a in marked.flagged :: marked.flagged[a] || Finished(marked, a))
  }

  /** The one-statement form is the sequential one. */
  lemma OneStatementIsSequential(db: Db, input: set<Id>)
    ensures Finalize(db, input) == SequentialRollUp(db, input)
  {
    var one, two := Finalize(db, input), SequentialRollUp(db, input);
    FinalizationCharacterised(db, input);
    assert one.links == two.links;
    forall a | a in db.flagged ensures one.flagged[a] == two.flagged[a] {
      assert LinksOf(one, a) == LinksOf(two, a);
      assert LinksOf(db.(links := two.links), a) == LinksOf(two, a);
    }
    assert one.flagged == two.flagged;
  }

  // ------------------------------------------------------ Repeating and batching

  /** The state depends on the inputs only through their union: order and batching are free. */
  lemma BatchesCompose(db: Db, a: set<Id>, b: set<Id>)
    ensures Finalize(Finalize(db, a), b) == Finalize(db, a + b)
  {
    var first := Finalize(db, a);
    var both, once := Finalize(first, b), Finalize(db, a + b);
    FinalizationCharacterised(db, a);
    FinalizationCharacterised(first, b);
    FinalizationCharacterised(db, a + b);
    assert both.links == once.links;
    forall x | x in db.flagged ensures both.flagged[x] == once.flagged[x] {
      FinishedStays(first, b, x);
      assert LinksOf(both, x) == LinksOf(once, x);
      assert Finished(both, x) <==> Finished(once, x);
    }
    assert both.flagged == once.flagged;
  }

  lemma FinishedStays(db: Db, input: set<Id>, artwork: Id)
    ensures Finished(db, artwork) ==> Finished(Finalize(db, input), artwork)
  {
  }

  /** Counts of consecutive calls add up: no link and no artwork is counted twice. */
  lemma CountsAdd(db: Db, a: set<Id>, b: set<Id>)
    ensures var first, second, once := CountsOf(db, a), CountsOf(Finalize(db, a), b), CountsOf(db, a + b);
            && first.links + second.links == once.links
            && first.artworks + second.artworks == once.artworks
  {
    var middle := Finalize(db, a);
    LinksAfter(db, a);
    FinalizationCharacterised(db, a);
    assert UpdatedLinks(db, a + b) == UpdatedLinks(db, a) + UpdatedLinks(middle, b);
    assert UpdatedLinks(db, a) !! UpdatedLinks(middle, b);
    CompletedAdd(db, a, b);
  }

  lemma CompletedAdd(db: Db, a: set<Id>, b: set<Id>)
    ensures CompletedArtworks(db, a + b) == CompletedArtworks(db, a) + CompletedArtworks(Finalize(db, a), b)
    ensures CompletedArtworks(db, a) !! CompletedArtworks(Finalize(db, a), b)
  {
  }

  /** Running the statement again changes nothing and counts nothing. */
  lemma FinalizationIsIdempotent(db: Db, input: set<Id>)
    ensures Finalize(Finalize(db, input), input) == Finalize(db, input)
    ensures CountsOf(Finalize(db, input), input) == Counts(0, 0, 0)
  {
  }
}
