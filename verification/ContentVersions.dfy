/**
  Optimistic concurrency between scrapers and the matching pipeline
  (matching_pipeline/image_blocking/pipeline.py and db_updates.py,
  matching_pipeline/image_matching/db_results.py; the triggers are those of
  db/init-production/01_schema_production.sql).

  Scrapers replace images and links at any time; any number of pipeline runs
  read rows and files, mark images embedded and commit scores in between.
  Replacing a file and recording its digest is one step. `embeddedFrom`, `read`
  and `Basis` are history: they say where a stored value came from.
*/
module ContentVersions {
  import opened Artworks
  import opened Results

  datatype Image = Image(content: nat, version: nat, embedded: bool, embeddedFrom: set<nat>)

  datatype Link = Link(artwork: Id, image: Id)

  /** The image contents a stored image score was computed from, and the auction image's version then. */
  datatype Basis = Basis(lostImage: Id, lostContent: nat, auctionImage: Id, auctionContent: nat, auctionVersion: nat)

  datatype Db = Db(
    images: map<Id, Image>,
    lostLinks: set<Link>,
    auctionLinks: set<Link>,
    revision: nat,
    scores: map<Pair, Basis>)

  function LinkedImages(links: set<Link>): set<Id> {
    set l | l in links :: l.image
  }

  function ArtworksOf(links: set<Link>, image: Id): set<Id> {
    set l | l in links && l.image == image :: l.artwork
  }

  // ------------------------------------------------------------ Scraper changes

  datatype Change =
    | AddImage(id: Id, content: nat)
    | Replace(id: Id, content: nat)
    | LinkLost(link: Link)
    | UnlinkLost(link: Link)
    | SyncAuctionLinks(artwork: Id, images: set<Id>, authoritative: bool)
    | ClearScores(artwork: Id)

  /** `invalidate_all_image_matching_for_lost_change` */
  function InvalidateAll(db: Db): Db {
    db.(revision := db.revision + 1, scores := map[])
  }

  function ClearAuctions(db: Db, artworks: set<Id>): Db {
    db.(scores := map p | p in db.scores && p.auction !in artworks :: db.scores[p])
  }

  /** A different digest advances the version, and the triggers invalidate what depends on it. */
  function ReplaceImage(db: Db, id: Id, content: nat): Db {
    if id !in db.images || db.images[id].content == content then db
    else
      var changed := db.(images := db.images[id := Image(content, db.images[id].version + 1, false, {})]);
      if id in LinkedImages(db.lostLinks) then InvalidateAll(changed)
      else ClearAuctions(changed, ArtworksOf(db.auctionLinks, id))
  }

  /** A complete scrape also removes links, and clears the scores of an artwork it leaves without images. */
  function SyncLinks(db: Db, artwork: Id, images: set<Id>, authoritative: bool): Db {
    var desired := images * db.images.Keys;
    var kept := set l | l in db.auctionLinks && (authoritative && l.artwork == artwork ==> l.image in desired);
    var cleared := if authoritative && desired == {} then ClearAuctions(db, {artwork}) else db;
    cleared.(auctionLinks := kept + set id | id in desired :: Link(artwork, id))
  }

  function ApplyChange(db: Db, c: Change): Db {
    match c
    case AddImage(id, content) =>
      if id in db.images then db else db.(images := db.images[id := Image(content, 1, false, {})])
    case Replace(id, content) => ReplaceImage(db, id, content)
    case LinkLost(l) =>
      if l in db.lostLinks || l.image !in db.images then db
      else InvalidateAll(db.(lostLinks := db.lostLinks + {l}))
    case UnlinkLost(l) =>
      if l !in db.lostLinks then db else InvalidateAll(db.(lostLinks := db.lostLinks - {l}))
    case SyncAuctionLinks(artwork, images, authoritative) => SyncLinks(db, artwork, images, authoritative)
    case ClearScores(a) => ClearAuctions(db, {a})
  }

  // -------------------------------------------------------------- Pipeline runs

  /** Loaded rows map an image to the version its row had; `read` collects the contents seen in files. */
  datatype Run = Run(
    revision: Option<nat>,
    lost: Option<map<Id, nat>>,
    skipped: set<Id>,
    auction: Option<map<Id, nat>>,
    read: map<Id, set<nat>>)

  const NEW_RUN := Run(None, None, {}, None, map[])

  function ReadRevision(db: Db, run: Run): Run {
    run.(revision := Some(db.revision))
  }

  /** All lost images, but for those skipped as undecodable or beyond a limit. */
  function LoadLost(db: Db, run: Run, skipped: set<Id>): Run {
    run.(lost := Some(map id | id in LinkedImages(db.lostLinks) && id in db.images && id !in skipped :: db.images[id].version),
         skipped := skipped)
  }

  function LoadAuction(db: Db, run: Run, selected: set<Id>): Run {
    run.(auction := Some(map id | id in selected && id in db.images :: db.images[id].version))
  }

  function Seen(run: Run, id: Id): set<nat> {
    if id in run.read then run.read[id] else {}
  }

  function ReadFile(db: Db, run: Run, id: Id): Run
    requires id in db.images
  {
    run.(read := run.read[id := Seen(run, id) + {db.images[id].content}])
  }

  function Expected(run: Run): map<Id, nat> {
    (if run.lost.Some? then run.lost.value else map[]) + (if run.auction.Some? then run.auction.value else map[])
  }

  // ------------------------------------------------------------------- Marking

  /** `_coerce_image_versions` refuses an image listed with two versions. */
  predicate Conflicting(run: Run) {
    run.lost.Some? && run.auction.Some?
    && exists id :: id in run.lost.value && id in run.auction.value && run.lost.value[id] != run.auction.value[id]
  }

  /** `mark_image_files_embedded`: only rows whose version still matches. */
  function MarkEmbedded(db: Db, expected: map<Id, nat>, read: map<Id, set<nat>>): Db {
    db.(images := map id | id in db.images ::
          var image := db.images[id];
          if id in expected && image.version == expected[id] && !image.embedded then
            image.(embedded := true, embeddedFrom := if id in read then read[id] else {})
          else image)
  }

  // ----------------------------------------------------------------- Committing

  /** `_lock_and_validate_image_content_snapshot` */
  predicate SnapshotValid(db: Db, run: Run, ids: set<Id>) {
    ids != {} ==>
      && run.revision.Some? && run.revision.value > 0
      && run.auction.Some?
      && (forall id :: id in ids ==> id in run.auction.value && run.auction.value[id] > 0)
      && (forall id :: id in ids ==> id in db.images && db.images[id].version == run.auction.value[id])
      && db.revision == run.revision.value
  }

  /** Scores a run can have to write: of its own rows, from contents it read, for artworks linked now. */
  predicate Computed(db: Db, run: Run, ids: set<Id>, scores: map<Pair, Basis>) {
    forall p :: p in scores ==>
      var b := scores[p];
      && b.auctionImage in ids && Link(p.auction, b.auctionImage) in db.auctionLinks
      && run.lost.Some? && b.lostImage in run.lost.value && Link(p.lost, b.lostImage) in db.lostLinks
      && b.lostContent in Seen(run, b.lostImage) && b.auctionContent in Seen(run, b.auctionImage)
      && run.auction.Some? && b.auctionImage in run.auction.value && b.auctionVersion == run.auction.value[b.auctionImage]
  }

  /** The guarded write; a failed guard rolls everything back. */
  function Commit(db: Db, run: Run, ids: set<Id>, scores: map<Pair, Basis>): Db {
    if SnapshotValid(db, run, ids) then db.(scores := db.scores + scores) else db
  }

  // ---------------------------------------------------------------- Interleaving

  datatype World = World(db: Db, runs: map<nat, Run>)

  datatype Action =
    | Scraper(change: Change)
    | Start(r: nat)
    | DoReadRevision(r: nat)
    | DoLoadLost(r: nat, skipped: set<Id>)
    | DoLoadAuction(r: nat, selected: set<Id>)
    | DoReadFile(r: nat, id: Id)
    | DoMark(r: nat)
    | DoCommit(r: nat, ids: set<Id>, scores: map<Pair, Basis>)

  /** `run_image_blocking` reads the revision before it loads rows, and loads rows before it reads files. */
  predicate Enabled(w: World, a: Action) {
    match a
    case Scraper(_) => true
    case Start(r) => r !in w.runs
    case DoReadRevision(r) => r in w.runs && w.runs[r] == NEW_RUN
    case DoLoadLost(r, _) => r in w.runs && w.runs[r].revision.Some? && w.runs[r].lost.None?
    case DoLoadAuction(r, _) => r in w.runs && w.runs[r].lost.Some? && w.runs[r].auction.None?
    case DoReadFile(r, id) =>
      r in w.runs && w.runs[r].auction.Some? && id in Expected(w.runs[r]) && id in w.db.images
    case DoMark(r) =>
      r in w.runs && w.runs[r].auction.Some? && forall id :: id in Expected(w.runs[r]) ==> id in w.runs[r].read
    case DoCommit(r, ids, scores) =>
      r in w.runs && w.runs[r].auction.Some? && Computed(w.db, w.runs[r], ids, scores)
  }

  function Next(w: World, a: Action): World
    requires Enabled(w, a)
  {
    match a
    case Scraper(change) => w.(db := ApplyChange(w.db, change))
    case Start(r) => w.(runs := w.runs[r := NEW_RUN])
    case DoReadRevision(r) => w.(runs := w.runs[r := ReadRevision(w.db, w.runs[r])])
    case DoLoadLost(r, skipped) => w.(runs := w.runs[r := LoadLost(w.db, w.runs[r], skipped)])
    case DoLoadAuction(r, selected) => w.(runs := w.runs[r := LoadAuction(w.db, w.runs[r], selected)])
    case DoReadFile(r, id) => w.(runs := w.runs[r := ReadFile(w.db, w.runs[r], id)])
    case DoMark(r) =>
      if Conflicting(w.runs[r]) then w
      else w.(db := MarkEmbedded(w.db, Expected(w.runs[r]), w.runs[r].read))
    case DoCommit(r, ids, scores) => w.(db := Commit(w.db, w.runs[r], ids, scores))
  }

  // ------------------------------------------------------------------ Invariants

  /** Every embedded mark is of the present content. */
  ghost predicate EmbeddedIsCurrent(db: Db) {
    forall id :: id in db.images && db.images[id].embedded ==> db.images[id].embeddedFrom == {db.images[id].content}
  }

  ghost predicate Current(db: Db, image: Id, content: nat) {
    image in db.images && db.images[image].content == content
  }

  /** The auction image has been replaced since the score was committed. */
  predicate Stale(db: Db, p: Pair) {
    && p in db.scores
    && var b := db.scores[p];
    b.auctionImage in db.images && db.images[b.auctionImage].version != b.auctionVersion
  }

  /** Every stored image score is of present contents, unless its auction image was replaced since. */
  ghost predicate ScoresAreCurrent(db: Db) {
    forall p :: p in db.scores ==>
      var b := db.scores[p];
      && Link(p.lost, b.lostImage) in db.lostLinks && Current(db, b.lostImage, b.lostContent)
      && b.auctionImage in db.images && b.auctionVersion <= db.images[b.auctionImage].version
      && (!Stale(db, p) ==> Current(db, b.auctionImage, b.auctionContent))
  }

  ghost predicate DbInvariant(db: Db) {
    && LinkedImages(db.lostLinks) <= db.images.Keys
    && db.revision > 0
    && (forall id :: id in db.images ==> db.images[id].version > 0)
    && EmbeddedIsCurrent(db)
    && ScoresAreCurrent(db)
  }

  /** A row of `run` is of a version that existed; while it is the present one, only the present content was read. */
  ghost predicate RowFits(db: Db, run: Run, id: Id, version: nat) {
    && id in db.images && 0 < version <= db.images[id].version
    && (version == db.images[id].version ==> Seen(run, id) <= {db.images[id].content})
  }

  ghost predicate CorpusFits(db: Db, run: Run)
    requires run.lost.Some?
  {
    && run.lost.value.Keys == LinkedImages(db.lostLinks) - run.skipped
    && forall id :: id in run.lost.value ==> id in db.images && db.images[id].version == run.lost.value[id]
  }

  ghost predicate RunInvariant(db: Db, run: Run) {
    && (run.revision.Some? ==> 0 < run.revision.value <= db.revision)
    && (run.lost.Some? ==> run.revision.Some?)
    && (run.auction.Some? ==> run.lost.Some?)
    && (forall id :: id in run.read ==> id in Expected(run) && run.read[id] != {})
    && (run.auction.None? ==> run.read == map[])
    && (run.lost.Some? ==> forall id :: id in run.lost.value ==> RowFits(db, run, id, run.lost.value[id]))
    && (run.auction.Some? ==> forall id :: id in run.auction.value ==> RowFits(db, run, id, run.auction.value[id]))
    && (run.lost.Some? && run.revision.value == db.revision ==> CorpusFits(db, run))
  }

  ghost predicate Invariant(w: World) {
    DbInvariant(w.db) && forall r :: r in w.runs ==> RunInvariant(w.db, w.runs[r])
  }

  // ------------------------------------------------------- Every step keeps them

  lemma ChangeKeepsDb(db: Db, c: Change)
    requires DbInvariant(db)
    ensures DbInvariant(ApplyChange(db, c))
  {
  }

  lemma ChangeKeepsRun(db: Db, c: Change, run: Run)
    requires DbInvariant(db) && RunInvariant(db, run)
    ensures RunInvariant(ApplyChange(db, c), run)
  {
  }

  lemma LoadLostKeepsRun(db: Db, run: Run, skipped: set<Id>)
    requires DbInvariant(db) && RunInvariant(db, run) && run.revision.Some? && run.lost.None?
    ensures RunInvariant(db, LoadLost(db, run, skipped))
  {
  }

  lemma LoadAuctionKeepsRun(db: Db, run: Run, selected: set<Id>)
    requires DbInvariant(db) && RunInvariant(db, run) && run.lost.Some? && run.auction.None?
    ensures RunInvariant(db, LoadAuction(db, run, selected))
  {
  }

  lemma ReadFileKeepsRun(db: Db, run: Run, id: Id)
    requires DbInvariant(db) && RunInvariant(db, run) && run.auction.Some? && id in Expected(run) && id in db.images
    ensures RunInvariant(db, ReadFile(db, run, id))
  {
  }

  lemma MarkKeeps(db: Db, run: Run, other: Run)
    requires DbInvariant(db) && RunInvariant(db, run) && run.auction.Some?
    requires forall id :: id in Expected(run) ==> id in run.read
    requires RunInvariant(db, other)
    ensures var after := MarkEmbedded(db, Expected(run), run.read);
            DbInvariant(after) && RunInvariant(after, other)
  {
    var after := MarkEmbedded(db, Expected(run), run.read);
    forall id | id in db.images
      ensures after.images[id].content == db.images[id].content && after.images[id].version == db.images[id].version
      ensures after.images[id].embedded ==> after.images[id].embeddedFrom == {db.images[id].content}
    {
      if id in Expected(run) && db.images[id].version == Expected(run)[id] && !db.images[id].embedded {
        assert RowFits(db, run, id, Expected(run)[id]);
      }
    }
    forall id, version | RowFits(db, other, id, version) ensures RowFits(after, other, id, version) {
    }
    if other.lost.Some? && other.revision.value == db.revision {
      assert CorpusFits(after, other);
    }
  }

  /** What a successful guard proves about a run's rows and what it read. */
  lemma GuardProves(db: Db, run: Run, ids: set<Id>)
    requires DbInvariant(db) && RunInvariant(db, run) && run.auction.Some?
    requires SnapshotValid(db, run, ids) && ids != {}
    ensures CorpusFits(db, run)
    ensures forall id :: id in run.lost.value ==> Seen(run, id) <= {db.images[id].content}
    ensures forall id :: id in ids ==> id in db.images && Seen(run, id) <= {db.images[id].content}
  {
  }

  lemma CommitKeeps(db: Db, run: Run, ids: set<Id>, scores: map<Pair, Basis>, other: Run)
    requires DbInvariant(db) && RunInvariant(db, run) && run.auction.Some? && RunInvariant(db, other)
    requires Computed(db, run, ids, scores)
    ensures DbInvariant(Commit(db, run, ids, scores)) && RunInvariant(Commit(db, run, ids, scores), other)
  {
    hide CorpusFits, RowFits, LinkedImages;
    var after := Commit(db, run, ids, scores);
    if SnapshotValid(db, run, ids) {
      if ids != {} {
        GuardProves(db, run, ids);
      }
      forall p | p in after.scores
        ensures var b := after.scores[p];
                && Link(p.lost, b.lostImage) in db.lostLinks && Current(db, b.lostImage, b.lostContent)
                && b.auctionImage in db.images && b.auctionVersion <= db.images[b.auctionImage].version
                && (!Stale(after, p) ==> Current(db, b.auctionImage, b.auctionContent))
      {
        if p in scores {
          assert scores[p].lostContent in Seen(run, scores[p].lostImage);
          assert scores[p].auctionContent in Seen(run, scores[p].auctionImage);
        }
      }
      assert ScoresAreCurrent(after);
      SameImagesSameRun(db, after, other);
    }
  }

  lemma SameImagesSameRun(db: Db, after: Db, run: Run)
    requires RunInvariant(db, run)
    requires after.images == db.images && after.lostLinks == db.lostLinks && after.revision == db.revision
    ensures RunInvariant(after, run)
  {
  }

  lemma ActionKeepsInvariant(w: World, a: Action)
    requires Invariant(w) && Enabled(w, a)
    ensures Invariant(Next(w, a))
  {
    hide DbInvariant, RunInvariant, ApplyChange, MarkEmbedded, Commit, Computed, Conflicting, Expected;
    hide LoadLost, LoadAuction, ReadFile;
    var after := Next(w, a);
    match a {
      case Scraper(change) =>
        ChangeKeepsDb(w.db, change);
        forall r | r in w.runs ensures RunInvariant(after.db, w.runs[r]) {
          ChangeKeepsRun(w.db, change, w.runs[r]);
        }
      case Start(r) => NewRunFits(w.db);
      case DoReadRevision(r) => FreshRevisionFits(w.db, w.runs[r]);
      case DoLoadLost(r, skipped) => LoadLostKeepsRun(w.db, w.runs[r], skipped);
      case DoLoadAuction(r, selected) => LoadAuctionKeepsRun(w.db, w.runs[r], selected);
      case DoReadFile(r, id) => ReadFileKeepsRun(w.db, w.runs[r], id);
      case DoMark(r) =>
        if !Conflicting(w.runs[r]) {
          MarkKeeps(w.db, w.runs[r], w.runs[r]);
          forall k | k in w.runs ensures RunInvariant(after.db, w.runs[k]) {
            MarkKeeps(w.db, w.runs[r], w.runs[k]);
          }
        }
      case DoCommit(r, ids, scores) =>
        CommitKeeps(w.db, w.runs[r], ids, scores, w.runs[r]);
        forall k | k in w.runs ensures RunInvariant(after.db, w.runs[k]) {
          CommitKeeps(w.db, w.runs[r], ids, scores, w.runs[k]);
        }
    }
  }

  lemma NewRunFits(db: Db)
    ensures RunInvariant(db, NEW_RUN)
  {
  }

  lemma FreshRevisionFits(db: Db, run: Run)
    requires DbInvariant(db) && run == NEW_RUN
    ensures RunInvariant(db, ReadRevision(db, run))
  {
  }

  // --------------------------------------------------------------- Whole histories

  predicate Legal(w: World, actions: seq<Action>)
    decreases |actions|
  {
    actions == [] || (Enabled(w, actions[0]) && Legal(Next(w, actions[0]), actions[1..]))
  }

  function Execute(w: World, actions: seq<Action>): World
    requires Legal(w, actions)
    decreases |actions|
  {
    if actions == [] then w else Execute(Next(w, actions[0]), actions[1..])
  }

  /** The invariants hold after every interleaving of scraper changes and pipeline steps. */
  lemma {:induction false} HistoryKeepsInvariant(w: World, actions: seq<Action>)
    requires Invariant(w) && Legal(w, actions)
    ensures Invariant(Execute(w, actions))
    decreases |actions|
  {
    if actions != [] {
      ActionKeepsInvariant(w, actions[0]);
      HistoryKeepsInvariant(Next(w, actions[0]), actions[1..]);
    }
  }

  /**
    A commit that passes the guard is of current contents: the corpus the run
    loaded is the current corpus, the images it processed have the versions it
    loaded, and every content it read of them is the present one.
  */
  lemma AcceptedCommitIsCurrent(
    w: World, actions: seq<Action>, r: nat, ids: set<Id>, scores: map<Pair, Basis>)
    requires Invariant(w) && Legal(w, actions)
    requires var now := Execute(w, actions);
             Enabled(now, DoCommit(r, ids, scores)) && ids != {} && SnapshotValid(now.db, now.runs[r], ids)
    ensures var now := Execute(w, actions);
            var run := now.runs[r];
            && run.lost.Some? && run.lost.value.Keys == LinkedImages(now.db.lostLinks) - run.skipped
            && (forall id :: id in run.lost.value || id in ids ==>
                  id in now.db.images && Seen(run, id) <= {now.db.images[id].content})
            && (forall p :: p in scores ==>
                  && Current(now.db, scores[p].lostImage, scores[p].lostContent)
                  && Current(now.db, scores[p].auctionImage, scores[p].auctionContent))
  {
    var now := Execute(w, actions);
    HistoryKeepsInvariant(w, actions);
    GuardProves(now.db, now.runs[r], ids);
    forall p | p in scores
      ensures Current(now.db, scores[p].lostImage, scores[p].lostContent)
      ensures Current(now.db, scores[p].auctionImage, scores[p].auctionContent)
    {
      assert scores[p].lostContent in Seen(now.runs[r], scores[p].lostImage);
      assert scores[p].auctionContent in Seen(now.runs[r], scores[p].auctionImage);
    }
  }

  /** The guard fires only after a change: of the lost corpus, or of one of the processed images. */
  lemma RejectionMeansChange(db: Db, run: Run, ids: set<Id>)
    requires DbInvariant(db) && RunInvariant(db, run) && run.auction.Some? && ids <= run.auction.value.Keys
    ensures !SnapshotValid(db, run, ids) <==>
              ids != {} && (|| run.revision.value < db.revision
                            || exists id :: id in ids && run.auction.value[id] < db.images[id].version)
  {
  }

  /** An image is marked embedded only for the content that was embedded, and any change clears the mark. */
  lemma MarksAreCurrent(w: World, actions: seq<Action>, id: Id)
    requires Invariant(w) && Legal(w, actions) && id in Execute(w, actions).db.images
    ensures var image := Execute(w, actions).db.images[id]; image.embedded ==> image.embeddedFrom == {image.content}
  {
    HistoryKeepsInvariant(w, actions);
  }

  // ------------------------------------------------------------- When a score is stale

  /** Different content for the score's auction image, which is linked neither to its artwork nor to a lost one. */
  predicate ReplacedWhileUnlinked(db: Db, c: Change, p: Pair) {
    && p in db.scores && c.Replace? && c.id == db.scores[p].auctionImage
    && c.id in db.images && db.images[c.id].content != c.content
    && Link(p.auction, c.id) !in db.auctionLinks && c.id !in LinkedImages(db.lostLinks)
  }

  /** The change removes the score of `p`, if there is one. */
  predicate Clears(db: Db, c: Change, p: Pair) {
    match c
    case AddImage(_, _) => false
    case Replace(id, content) =>
      && id in db.images && db.images[id].content != content
      && (id in LinkedImages(db.lostLinks) || Link(p.auction, id) in db.auctionLinks)
    case LinkLost(l) => l !in db.lostLinks && l.image in db.images
    case UnlinkLost(l) => l in db.lostLinks
    case SyncAuctionLinks(artwork, images, authoritative) =>
      artwork == p.auction && authoritative && images * db.images.Keys == {}
    case ClearScores(artwork) => artwork == p.auction
  }

  predicate Hits(w: World, a: Action, p: Pair) {
    a.Scraper? && ReplacedWhileUnlinked(w.db, a.change, p)
  }

  /** The score of `p` is removed, or a run that passes the guard writes a new one. */
  predicate Ends(w: World, a: Action, p: Pair)
    requires Enabled(w, a)
  {
    || (a.Scraper? && Clears(w.db, a.change, p))
    || (a.DoCommit? && p in a.scores && SnapshotValid(w.db, w.runs[a.r], a.ids))
  }

  predicate NeverEnded(w: World, actions: seq<Action>, p: Pair)
    requires Legal(w, actions)
    decreases |actions|
  {
    actions == [] || (!Ends(w, actions[0], p) && NeverEnded(Next(w, actions[0]), actions[1..], p))
  }

  /** Some action hit the score of `p`, and none after it ended that score. */
  predicate HitAndNeverEnded(w: World, actions: seq<Action>, p: Pair)
    requires Legal(w, actions)
    decreases |actions|
  {
    && actions != []
    && var next := Next(w, actions[0]);
    || (Hits(w, actions[0], p) && NeverEnded(next, actions[1..], p))
    || HitAndNeverEnded(next, actions[1..], p)
  }

  lemma ArtworkOf(links: set<Link>, image: Id, artwork: Id)
    ensures artwork in ArtworksOf(links, image) <==> Link(artwork, image) in links
  {
    if artwork in ArtworksOf(links, image) {
      var l :| l in links && l.image == image && l.artwork == artwork;
      assert l == Link(artwork, image);
    } else {
      assert Link(artwork, image) !in links;
    }
  }

  lemma ChangeStales(db: Db, c: Change, p: Pair)
    requires DbInvariant(db)
    ensures Stale(ApplyChange(db, c), p) <==> ReplacedWhileUnlinked(db, c, p) || (Stale(db, p) && !Clears(db, c, p))
    ensures p in db.scores ==> (p !in ApplyChange(db, c).scores <==> Clears(db, c, p))
  {
    match c {
      case Replace(id, content) => ArtworkOf(db.auctionLinks, id, p.auction);
      case _ =>
    }
  }

  lemma CommitStales(db: Db, run: Run, ids: set<Id>, scores: map<Pair, Basis>, p: Pair)
    requires DbInvariant(db) && RunInvariant(db, run) && run.auction.Some? && Computed(db, run, ids, scores)
    ensures Stale(Commit(db, run, ids, scores), p) <==> Stale(db, p) && !(p in scores && SnapshotValid(db, run, ids))
  {
  }

  /** One step: a score is stale afterwards if it was hit, or was stale and is not ended. */
  lemma StepStales(w: World, a: Action, p: Pair)
    requires Invariant(w) && Enabled(w, a)
    ensures Stale(Next(w, a).db, p) <==> Hits(w, a, p) || (Stale(w.db, p) && !Ends(w, a, p))
  {
    hide DbInvariant, RunInvariant, ApplyChange, Commit, Computed, ReplacedWhileUnlinked, Clears, SnapshotValid;
    match a {
      case Scraper(change) => ChangeStales(w.db, change, p);
      case DoCommit(r, ids, scores) => CommitStales(w.db, w.runs[r], ids, scores, p);
      case _ =>
    }
  }

  lemma {:induction false} HistoryStales(w: World, actions: seq<Action>, p: Pair)
    requires Invariant(w) && Legal(w, actions)
    ensures Stale(Execute(w, actions).db, p) <==>
              HitAndNeverEnded(w, actions, p) || (Stale(w.db, p) && NeverEnded(w, actions, p))
    decreases |actions|
  {
    hide Invariant, Stale, Hits, Ends, Enabled, Next;
    if actions != [] {
      StepStales(w, actions[0], p);
      ActionKeepsInvariant(w, actions[0]);
      HistoryStales(Next(w, actions[0]), actions[1..], p);
    }
  }

  /**
    A stored score is of the lost image's present content, and of the auction
    image's too unless that image was replaced since. If no score was stale at
    first, one is stale exactly if its image was replaced while unlinked from its
    artwork and nothing since removed or renewed the score.
  */
  lemma StoredScoresAreCurrent(w: World, actions: seq<Action>, p: Pair)
    requires Invariant(w) && Legal(w, actions) && !Stale(w.db, p)
    ensures var db := Execute(w, actions).db;
            && (Stale(db, p) <==> HitAndNeverEnded(w, actions, p))
            && (p in db.scores ==>
                  && Current(db, db.scores[p].lostImage, db.scores[p].lostContent)
                  && (!Stale(db, p) ==> Current(db, db.scores[p].auctionImage, db.scores[p].auctionContent)))
  {
    HistoryKeepsInvariant(w, actions);
    HistoryStales(w, actions, p);
    hide Execute, Legal, HitAndNeverEnded;
  }

  // -------------------------------------------------------------- Two limits of it

  /** A lost image, an auction image, each linked to an artwork; nothing marked or scored. */
  function SmallDb(): Db {
    Db(map[1 := Image(10, 1, false, {}), 2 := Image(20, 1, false, {})], {Link(100, 1)}, {Link(200, 2)}, 1, map[])
  }

  /**
    The order matters. If the revision were read after the rows and files, a
    replacement in between would go unnoticed and a stale score be committed.
  */
  lemma RevisionReadLastIsUnsound()
    ensures DbInvariant(SmallDb())
    ensures var db0 := SmallDb();
            var loaded := ReadFile(db0, ReadFile(db0, LoadAuction(db0, LoadLost(db0, NEW_RUN, {}), {2}), 1), 2);
            var db1 := ApplyChange(db0, Replace(1, 11));
            var late := ReadRevision(db1, loaded);
            var scores := map[Pair(100, 200) := Basis(1, 10, 2, 20, 1)];
            && Computed(db1, late, {2}, scores)
            && SnapshotValid(db1, late, {2})
            && !Current(db1, 1, 10)
  {
  }

  /**
    An artwork with two images: one scrape drops the second image, its file then
    changes, and a later scrape brings it back. No trigger clears the score.
  */
  lemma RelinkedImageKeepsStaleScore()
    returns (db: Db, changes: seq<Change>)
    ensures DbInvariant(db) && forall p :: p in db.scores ==> !Stale(db, p)
    ensures changes == [SyncAuctionLinks(200, {3}, true), Replace(2, 21), SyncAuctionLinks(200, {2, 3}, true)]
    ensures Link(200, 2) in db.auctionLinks && Link(200, 3) in db.auctionLinks
    ensures var after := ApplyChange(ApplyChange(ApplyChange(db, changes[0]), changes[1]), changes[2]);
            var p := Pair(100, 200);
            && Stale(after, p) && Link(200, after.scores[p].auctionImage) in after.auctionLinks
            && !Current(after, after.scores[p].auctionImage, after.scores[p].auctionContent)
  {
    db := SmallDb().(
      images := SmallDb().images[3 := Image(30, 1, false, {})],
      auctionLinks := {Link(200, 2), Link(200, 3)},
      scores := map[Pair(100, 200) := Basis(1, 10, 2, 20, 1)]);
    changes := [SyncAuctionLinks(200, {3}, true), Replace(2, 21), SyncAuctionLinks(200, {2, 3}, true)];
    var unlinked := ApplyChange(db, changes[0]);
    assert 3 in {3} * db.images.Keys;
    assert ArtworksOf(unlinked.auctionLinks, 2) == {};
    assert 2 !in LinkedImages(unlinked.lostLinks);
    var replaced := ApplyChange(unlinked, changes[1]);
    assert Pair(100, 200) in replaced.scores && replaced.images[2].version == 2;
    assert 2 in {2, 3} * replaced.images.Keys;
  }

  // --------------------------------------------------------------------- The code

  /** Positive ids and versions, and one version per id. */
  ghost predicate Coercible(values: seq<(int, int)>) {
    && (forall v :: v in values ==> v.0 > 0 && v.1 > 0)
    && (forall i, j :: 0 <= i < |values| && 0 <= j < |values| && values[i].0 == values[j].0 ==>
          values[i].1 == values[j].1)
  }

  /** The map with exactly these ids, each with its version. */
  ghost predicate Coerced(values: seq<(int, int)>, m: map<Id, nat>) {
    && (forall id :: id in m <==> exists v :: v in values && v.0 == id)
    && (forall v :: v in values ==> v.0 in m && m[v.0] == v.1)
  }

  /** `_coerce_image_versions` */
  method CoerceImageVersions(values: seq<(int, int)>) returns (r: Option<map<Id, nat>>)
    ensures r.Some? <==> Coercible(values)
    ensures r.Some? ==> Coerced(values, r.value)
  {
    var seen: map<Id, nat> := map[];
    for i := 0 to |values|
      invariant forall k :: 0 <= k < i ==> values[k].0 > 0 && values[k].1 > 0
      invariant forall k :: 0 <= k < i ==> values[k].0 in seen && seen[values[k].0] == values[k].1
      invariant forall id :: id in seen ==> exists k :: 0 <= k < i && values[k].0 == id
    {
      var (id, version) := values[i];
      if id <= 0 || version <= 0 {
        return None;
      }
      if id in seen {
        if seen[id] != version {
          return None;
        }
      } else {
        seen := seen[id := version];
      }
    }
    return Some(seen);
  }

  function IdSet(ids: seq<Id>): set<Id> {
    set id | id in ids
  }

  /** `after` is `db` with exactly the images marked that are listed with the version they have. */
  ghost predicate MarkedAsListed(db: Db, values: seq<(int, int)>, after: Db) {
    && after.(images := db.images) == db && after.images.Keys == db.images.Keys
    && forall id :: id in db.images ==>
         var was, now := db.images[id], after.images[id];
         && now.content == was.content && now.version == was.version
         && (now.embedded <==> was.embedded || exists v :: v in values && v.0 == id && v.1 == was.version)
         && (was.embedded ==> now.embeddedFrom == was.embeddedFrom)
  }

  lemma MarksAsListed(db: Db, values: seq<(int, int)>, expected: map<Id, nat>, read: map<Id, set<nat>>)
    requires Coerced(values, expected)
    ensures MarkedAsListed(db, values, MarkEmbedded(db, expected, read))
  {
    var after := MarkEmbedded(db, expected, read);
    forall id | id in db.images
      ensures after.images[id].embedded <==>
                db.images[id].embedded || exists v :: v in values && v.0 == id && v.1 == db.images[id].version
    {
      if id in expected {
        var v :| v in values && v.0 == id;
      }
    }
  }

  class ImageDatabase {
    var db: Db

    constructor (db: Db)
      ensures this.db == db
    {
      this.db := db;
    }

    /** Nothing is written when the versions conflict; otherwise exactly the rows still at their version are marked. */
    method MarkImageFilesEmbedded(values: seq<(int, int)>, read: map<Id, set<nat>>) returns (r: Option<map<Id, nat>>)
      modifies this
      ensures r.Some? <==> Coercible(values)
      ensures r.None? ==> db == old(db)
      ensures r.Some? ==> Coerced(values, r.value) && db == MarkEmbedded(old(db), r.value, read)
      ensures r.Some? ==> MarkedAsListed(old(db), values, db)
    {
      r := CoerceImageVersions(values);
      if r.Some? {
        MarksAsListed(db, values, r.value, read);
        db := MarkEmbedded(db, r.value, read);
      }
    }

    /** The guard and the write, in one transaction. */
    method WriteMatchingResults(run: Run, ids: seq<Id>, scores: map<Pair, Basis>) returns (accepted: bool)
      modifies this
      ensures var input := IdSet(ids);
              accepted == SnapshotValid(old(db), run, input) && db == if accepted then Commit(old(db), run, input, scores) else old(db)
    {
      accepted := ValidateSnapshot(run, ids);
      if accepted {
        db := Commit(db, run, IdSet(ids), scores);
      }
    }

    method ValidateSnapshot(run: Run, ids: seq<Id>) returns (valid: bool)
      ensures valid == SnapshotValid(db, run, IdSet(ids))
    {
      ghost var input := IdSet(ids);
      if |ids| == 0 {
        return true;
      }
      assert ids[0] in input;
      if run.revision.None? || run.revision.value <= 0 {
        return false;
      }
      for i := 0 to |ids|
        invariant forall k :: 0 <= k < i ==>
                    run.auction.Some? && ids[k] in run.auction.value && run.auction.value[ids[k]] > 0
      {
        if run.auction.None? || ids[i] !in run.auction.value || run.auction.value[ids[i]] <= 0 {
          assert ids[i] in input;
          return false;
        }
      }
      for i := 0 to |ids|
        invariant forall k :: 0 <= k < i ==>
                    ids[k] in db.images && db.images[ids[k]].version == run.auction.value[ids[k]]
      {
        if ids[i] !in db.images || db.images[ids[i]].version != run.auction.value[ids[i]] {
          assert ids[i] in input;
          return false;
        }
      }
      return db.revision == run.revision.value;
    }
  }
}
