/**
  Image scores of artwork pairs: reduced in memory to one best row per pair
  (matching_pipeline/image_matching/result_rows.py), then merged into the stored
  rows by a conditional upsert (matching_pipeline/image_matching/db_results.py).
*/
module MatchScores {
  import opened Artworks
  import opened Results
  import opened Sequences

  // --------------------------------------------------------------- Written scores

  datatype Score = Score(final: real, confidence: real, blocking: Option<real>)

  /** One accepted image match: two image files, a confidence, maybe a blocking similarity. */
  datatype Accepted = Accepted(auctionFile: int, lostFile: int, confidence: real, blocking: Option<real>)

  datatype Item = Item(score: Score, bestImage: int)

  datatype Write = Write(key: Pair, item: Item)

  predicate InRange(m: Accepted) {
    && m.auctionFile > 0 && m.lostFile > 0
    && 0.0 <= m.confidence <= 1.0
    && (m.blocking.Some? ==> -1.0 <= m.blocking.value <= 1.0)
  }

  function FinalScore(confidence: real, blocking: Option<real>): real {
    if blocking.None? then confidence else confidence * blocking.value
  }

  function ScoreOf(m: Accepted): Score {
    Score(FinalScore(m.confidence, m.blocking), m.confidence, m.blocking)
  }

  predicate ValidScore(s: Score) {
    && -1.0 <= s.final <= 1.0 && 0.0 <= s.confidence <= 1.0
    && (s.blocking.Some? ==> -1.0 <= s.blocking.value <= 1.0)
  }

  lemma ScoresAreValid(m: Accepted)
    requires InRange(m)
    ensures ValidScore(ScoreOf(m))
  {
    if m.blocking.Some? {
      var c, b := m.confidence, m.blocking.value;
      ProductIsNonNegative(c, 1.0 - b);
      ProductIsNonNegative(c, 1.0 + b);
      assert c * (1.0 - b) == c - c * b && c * (1.0 + b) == c + c * b;
    }
  }

  lemma ProductIsNonNegative(a: real, b: real)
    requires a >= 0.0 && b >= 0.0
    ensures a * b >= 0.0
  {
  }

  /** Without a blocking similarity the confidence counts in full, as with a similarity of one. */
  lemma FinalScoreEnds(c: real)
    ensures FinalScore(c, None) == FinalScore(c, Some(1.0)) == c
    ensures FinalScore(c, Some(0.0)) == 0.0 && FinalScore(c, Some(-1.0)) == -c
  {
  }

  /** In between the final score grows in proportion to both: equal steps of either are equal steps of the score. */
  lemma FinalScoreIsProportional(c: real, d: real, b: real, t: real)
    ensures FinalScore(c, Some(b + t)) - FinalScore(c, Some(b)) == FinalScore(c, Some(t))
    ensures FinalScore(c + d, Some(b)) - FinalScore(c, Some(b)) == FinalScore(d, Some(b))
    ensures c > 0.0 && t > 0.0 ==> FinalScore(c, Some(b + t)) > FinalScore(c, Some(b))
    ensures d > 0.0 && b > 0.0 ==> FinalScore(c + d, Some(b)) > FinalScore(c, Some(b))
  {
  }

  // ------------------------------------------------------------------- Two orders

  /** `_is_better`: final score, then confidence, then blocking similarity with `None` lowest. */
  predicate Better(a: Score, b: Score) {
    if a.final != b.final then a.final > b.final
    else if a.confidence != b.confidence then a.confidence > b.confidence
    else if b.blocking.None? then a.blocking.Some?
    else if a.blocking.None? then false
    else a.blocking.value > b.blocking.value
  }

  /** The image columns of a `match_score` row; all are NULL in a row only metadata matching wrote. */
  datatype Row = Row(
    final: Option<real>, confidence: Option<real>, blocking: Option<real>, bestImage: Option<int>, metadata: nat)

  function Coalesce(o: Option<real>, fallback: real): real {
    if o.Some? then o.value else fallback
  }

  /** The upsert's `WHERE` clause. */
  predicate Replaces(s: Score, row: Row) {
    var final, confidence, blocking :=
      Coalesce(row.final, -2.0), Coalesce(row.confidence, -1.0), Coalesce(row.blocking, -2.0);
    || s.final > final
    || (s.final == final && s.confidence > confidence)
    || (s.final == final && s.confidence == confidence && Coalesce(s.blocking, -2.0) >= blocking)
  }

  function StoredScore(row: Row): Option<Score> {
    if row.final.Some? && row.confidence.Some? then Some(Score(row.final.value, row.confidence.value, row.blocking))
    else None
  }

  predicate ValidRow(row: Row) {
    if row.final.None? then row.confidence.None? && row.blocking.None?
    else row.confidence.Some? && ValidScore(StoredScore(row).value)
  }

  /** `Better` is a strict total order on scores. */
  lemma BetterIsTotalOrder(a: Score, b: Score, c: Score)
    ensures !Better(a, a)
    ensures a == b || Better(a, b) || Better(b, a)
    ensures Better(a, b) ==> !Better(b, a)
    ensures Better(a, b) && Better(b, c) ==> Better(a, c)
  {
  }

  /** A higher final score wins whatever the rest; then a higher confidence; then a higher similarity, or any at all. */
  lemma BetterIsLexicographic(a: Score, b: Score)
    ensures a.final > b.final ==> Better(a, b)
    ensures a.final == b.final && a.confidence > b.confidence ==> Better(a, b)
    ensures a.final == b.final && a.confidence == b.confidence && a.blocking.Some? && b.blocking.None? ==> Better(a, b)
    ensures (&& a.final == b.final && a.confidence == b.confidence && a.blocking.Some? && b.blocking.Some?
             && a.blocking.value > b.blocking.value) ==> Better(a, b)
    ensures Better(a, b) ==> a.final >= b.final && (a.final == b.final ==> a.confidence >= b.confidence)
  {
  }

  /** On valid scores the sentinels of the SQL order agree with `None` lowest; ties replace. */
  lemma SqlOrderIsMemoryOrder(s: Score, row: Row)
    requires ValidScore(s) && ValidRow(row)
    ensures Replaces(s, row) <==> StoredScore(row).None? || !Better(StoredScore(row).value, s)
  {
  }

  // ------------------------------------------------------- One best row per pair

  datatype Run = Run(accepted: seq<Accepted>, auctionLinks: map<int, seq<Id>>, lostLinks: map<int, seq<Id>>)

  /** `_required_links`: an absent entry and an empty one are the same. */
  function LinksOf(links: map<int, seq<Id>>, file: int): seq<Id> {
    if file in links then links[file] else []
  }

  predicate Acceptable(run: Run, m: Accepted) {
    InRange(m) && LinksOf(run.auctionLinks, m.auctionFile) != [] && LinksOf(run.lostLinks, m.lostFile) != []
  }

  predicate Contributes(run: Run, m: Accepted, key: Pair) {
    key.auction in LinksOf(run.auctionLinks, m.auctionFile) && key.lost in LinksOf(run.lostLinks, m.lostFile)
  }

  /** Match `i` is the first of the best among those that concern `key`. */
  ghost predicate FirstBest(run: Run, n: nat, key: Pair, i: nat)
    requires n <= |run.accepted|
  {
    && i < n && Contributes(run, run.accepted[i], key)
    && (forall j :: 0 <= j < n && Contributes(run, run.accepted[j], key) ==>
          var a, b := ScoreOf(run.accepted[i]), ScoreOf(run.accepted[j]);
          Better(a, b) || (a == b && i <= j))
  }

  function ItemOf(m: Accepted): Item {
    Item(ScoreOf(m), m.auctionFile)
  }

  /** What the dictionary holds for `key` after `n` matches. */
  ghost predicate Holds(run: Run, n: nat, key: Pair, grouped: map<Pair, Item>)
    requires n <= |run.accepted|
  {
    if key in grouped then
      exists i :: 0 <= i < n && FirstBest(run, n, key, i) && grouped[key] == ItemOf(run.accepted[i])
    else
      forall j :: 0 <= j < n ==> !Contributes(run, run.accepted[j], key)
  }

  ghost predicate Grouped(run: Run, n: nat, grouped: map<Pair, Item>)
    requires n <= |run.accepted|
  {
    forall key :: Holds(run, n, key, grouped)
  }

  function Offer(grouped: map<Pair, Item>, key: Pair, item: Item): map<Pair, Item> {
    if key !in grouped || Better(item.score, grouped[key].score) then grouped[key := item] else grouped
  }

  /** Offering match `n` to a key it contributes to; a second offer of it changes nothing. */
  lemma OfferKeepsFirstBest(run: Run, n: nat, key: Pair, before: map<Pair, Item>, grouped: map<Pair, Item>)
    requires n < |run.accepted| && Contributes(run, run.accepted[n], key)
    requires Holds(run, n, key, before)
    requires (key in grouped && key in before && grouped[key] == before[key]) || (key !in grouped && key !in before)
          || Holds(run, n + 1, key, grouped)
    ensures Holds(run, n + 1, key, Offer(grouped, key, ItemOf(run.accepted[n])))
  {
    hide Contributes, Better, ScoreOf;
    var mine := ScoreOf(run.accepted[n]);
    if key !in grouped {
      FirstOffer(run, n, key);
    } else if Holds(run, n + 1, key, grouped) {
      var i :| 0 <= i < n + 1 && FirstBest(run, n + 1, key, i) && grouped[key] == ItemOf(run.accepted[i]);
      BetterIsTotalOrder(ScoreOf(run.accepted[i]), mine, mine);
    } else {
      var i :| 0 <= i < n && FirstBest(run, n, key, i) && grouped[key] == ItemOf(run.accepted[i]);
      OfferToBest(run, n, key, i);
    }
  }

  lemma FirstOffer(run: Run, n: nat, key: Pair)
    requires n < |run.accepted| && Contributes(run, run.accepted[n], key)
    requires forall j :: 0 <= j < n ==> !Contributes(run, run.accepted[j], key)
    ensures FirstBest(run, n + 1, key, n)
  {
    hide Contributes, Better, ScoreOf;
  }

  lemma OfferToBest(run: Run, n: nat, key: Pair, i: nat)
    requires n < |run.accepted| && Contributes(run, run.accepted[n], key) && FirstBest(run, n, key, i)
    ensures var best, mine := ScoreOf(run.accepted[i]), ScoreOf(run.accepted[n]);
            if Better(mine, best) then FirstBest(run, n + 1, key, n) else FirstBest(run, n + 1, key, i)
  {
    hide Contributes, Better, ScoreOf;
    var best, mine := ScoreOf(run.accepted[i]), ScoreOf(run.accepted[n]);
    BetterIsTotalOrder(mine, best, mine);
    forall j | 0 <= j < n && Contributes(run, run.accepted[j], key) && Better(mine, best)
      ensures Better(mine, ScoreOf(run.accepted[j]))
    {
      BetterIsTotalOrder(mine, best, ScoreOf(run.accepted[j]));
    }
  }

  lemma NoOfferKeepsFirstBest(run: Run, n: nat, key: Pair, grouped: map<Pair, Item>)
    requires n < |run.accepted| && !Contributes(run, run.accepted[n], key) && Holds(run, n, key, grouped)
    ensures Holds(run, n + 1, key, grouped)
  {
    hide Contributes, Better, ScoreOf;
    if key in grouped {
      var i :| 0 <= i < n && FirstBest(run, n, key, i) && grouped[key] == ItemOf(run.accepted[i]);
      assert FirstBest(run, n + 1, key, i);
    }
  }

  /** Keys in `done` are settled after match `n`; the others are as they were before it. */
  ghost predicate PartlyOffered(run: Run, n: nat, done: set<Pair>, before: map<Pair, Item>, grouped: map<Pair, Item>)
    requires n < |run.accepted|
  {
    && (forall key :: key in done ==> Holds(run, n + 1, key, grouped))
    && (forall key :: key !in done ==>
          (key in grouped <==> key in before) && (key in grouped ==> grouped[key] == before[key]))
  }

  lemma OfferOne(run: Run, n: nat, done: set<Pair>, key: Pair, before: map<Pair, Item>, grouped: map<Pair, Item>)
    requires n < |run.accepted| && Contributes(run, run.accepted[n], key) && Grouped(run, n, before)
    requires PartlyOffered(run, n, done, before, grouped)
    ensures PartlyOffered(run, n, done + {key}, before, Offer(grouped, key, ItemOf(run.accepted[n])))
  {
    hide Contributes, Better, FirstBest, Holds;
    var after := Offer(grouped, key, ItemOf(run.accepted[n]));
    OfferKeepsFirstBest(run, n, key, before, grouped);
    forall k | k in done + {key} ensures Holds(run, n + 1, k, after) {
      if k != key {
        HoldsIsLocal(run, n + 1, k, grouped, after);
      }
    }
  }

  lemma HoldsIsLocal(run: Run, n: nat, key: Pair, a: map<Pair, Item>, b: map<Pair, Item>)
    requires n <= |run.accepted| && Holds(run, n, key, a)
    requires (key in a <==> key in b) && (key in a ==> a[key] == b[key])
    ensures Holds(run, n, key, b)
  {
  }

  /** The two inner loops: every pair of linked artworks is offered match `n`. */
  method OfferMatch(run: Run, n: nat, before: map<Pair, Item>) returns (grouped: map<Pair, Item>)
    requires n < |run.accepted| && Grouped(run, n, before)
    ensures Grouped(run, n + 1, grouped)
  {
    hide Holds, Better;
    var m := run.accepted[n];
    var auctions, losts := LinksOf(run.auctionLinks, m.auctionFile), LinksOf(run.lostLinks, m.lostFile);
    ghost var done: set<Pair> := {};
    grouped := before;
    for i := 0 to |auctions|
      invariant PartlyOffered(run, n, done, before, grouped)
      invariant forall key :: key in done <==> key.auction in auctions[..i] && key.lost in losts
    {
      ghost var earlier := done;
      for j := 0 to |losts|
        invariant PartlyOffered(run, n, done, before, grouped)
        invariant forall key :: key in done <==> key in earlier || (key.auction == auctions[i] && key.lost in losts[..j])
      {
        var key := Pair(losts[j], auctions[i]);
        OfferOne(run, n, done, key, before, grouped);
        grouped := Offer(grouped, key, ItemOf(m));
        done := done + {key};
      }
    }
    ghost var next := n + 1;
    forall key ensures Holds(run, next, key, grouped) {
      if key !in done {
        HoldsIsLocal(run, n, key, before, grouped);
        NoOfferKeepsFirstBest(run, n, key, grouped);
      }
    }
  }

  /** `writes` holds, in key order, one row for each pair some match concerns: its first best match. */
  ghost predicate Prepared(run: Run, writes: seq<Write>) {
    && (forall i, j :: 0 <= i < j < |writes| ==> PairBefore(writes[i].key, writes[j].key))
    && (forall w :: w in writes ==>
          exists i :: 0 <= i < |run.accepted|
            && FirstBest(run, |run.accepted|, w.key, i) && w.item == ItemOf(run.accepted[i]))
    && (forall m, key :: m in run.accepted && Contributes(run, m, key) ==> exists w :: w in writes && w.key == key)
  }

  ghost predicate Linked(links: map<int, seq<Id>>, file: int, artwork: Id) {
    file in links && artwork in links[file]
  }

  /** A match whose files are known and linked, with its scores in range. */
  ghost predicate Usable(run: Run, m: Accepted) {
    && m.auctionFile > 0 && m.lostFile > 0
    && 0.0 <= m.confidence <= 1.0 && (m.blocking.Some? ==> -1.0 <= m.blocking.value <= 1.0)
    && (exists a :: Linked(run.auctionLinks, m.auctionFile, a)) && (exists l :: Linked(run.lostLinks, m.lostFile, l))
  }

  /** The row comes from this match: of two artworks its files are linked to, with its scores and its auction image. */
  ghost predicate WrittenFrom(run: Run, m: Accepted, w: Write) {
    && Linked(run.lostLinks, m.lostFile, w.key.lost) && Linked(run.auctionLinks, m.auctionFile, w.key.auction)
    && w.item.bestImage == m.auctionFile
    && w.item.score.confidence == m.confidence && w.item.score.blocking == m.blocking
    && w.item.score.final == if m.blocking.Some? then m.confidence * m.blocking.value else m.confidence
  }

  /** Every row comes from a match, and every pair of artworks a match links has a row. */
  ghost predicate RowsOfMatches(run: Run, writes: seq<Write>) {
    && (forall w :: w in writes ==> exists m :: m in run.accepted && WrittenFrom(run, m, w))
    && (forall m, a, l :: m in run.accepted && Linked(run.auctionLinks, m.auctionFile, a) && Linked(run.lostLinks, m.lostFile, l) ==>
          exists w :: w in writes && w.key == Pair(l, a))
  }

  lemma PreparedRowsOfMatches(run: Run, writes: seq<Write>)
    requires Prepared(run, writes)
    ensures RowsOfMatches(run, writes)
  {
    forall w | w in writes ensures exists m :: m in run.accepted && WrittenFrom(run, m, w) {
      var i :| 0 <= i < |run.accepted| && FirstBest(run, |run.accepted|, w.key, i) && w.item == ItemOf(run.accepted[i]);
      assert run.accepted[i] in run.accepted && WrittenFrom(run, run.accepted[i], w);
    }
    forall m, a, l | m in run.accepted && Linked(run.auctionLinks, m.auctionFile, a) && Linked(run.lostLinks, m.lostFile, l)
      ensures exists w :: w in writes && w.key == Pair(l, a)
    {
      assert Contributes(run, m, Pair(l, a));
    }
  }

  lemma AcceptableIsUsable(run: Run, m: Accepted)
    ensures Acceptable(run, m) <==> Usable(run, m)
  {
    var auctions, losts := LinksOf(run.auctionLinks, m.auctionFile), LinksOf(run.lostLinks, m.lostFile);
    if auctions != [] && losts != [] {
      assert Linked(run.auctionLinks, m.auctionFile, auctions[0]) && Linked(run.lostLinks, m.lostFile, losts[0]);
    }
  }

  /** `prepare_match_score_image_writes`: fails exactly when some match is out of range or unlinked. */
  method PrepareWrites(run: Run) returns (r: Option<seq<Write>>)
    ensures r.Some? <==> forall m :: m in run.accepted ==> Acceptable(run, m)
    ensures r.Some? <==> forall m :: m in run.accepted ==> Usable(run, m)
    ensures r.Some? ==> Prepared(run, r.value) && RowsOfMatches(run, r.value)
  {
    forall m ensures Acceptable(run, m) <==> Usable(run, m) {
      AcceptableIsUsable(run, m);
    }
    hide Acceptable, Usable, RowsOfMatches;
    hide Holds, Better, FirstBest, Contributes;
    var grouped: map<Pair, Item> := map[];
    NothingGrouped(run);
    for n := 0 to |run.accepted|
      invariant Grouped(run, n, grouped)
      invariant forall k :: 0 <= k < n ==> Acceptable(run, run.accepted[k])
    {
      var m := run.accepted[n];
      if !Acceptable(run, m) {
        return None;
      }
      grouped := OfferMatch(run, n, grouped);
    }
    var keys := SortedKeys(grouped);
    var writes := seq(|keys|, i requires 0 <= i < |keys| => Write(keys[i], grouped[keys[i]]));
    SortedWrites(run, grouped, keys, writes);
    PreparedRowsOfMatches(run, writes);
    return Some(writes);
  }

  lemma NothingGrouped(run: Run)
    ensures Grouped(run, 0, map[])
  {
  }

  function SortedKeys(grouped: map<Pair, Item>): (keys: seq<Pair>)
    ensures Ordered(PairBefore, keys)
    ensures forall key :: key in keys <==> key in grouped
  {
    Sorted(PairBefore, grouped.Keys)
  }

  lemma SortedWrites(run: Run, grouped: map<Pair, Item>, keys: seq<Pair>, writes: seq<Write>)
    requires Grouped(run, |run.accepted|, grouped)
    requires Ordered(PairBefore, keys) && forall key :: key in keys <==> key in grouped
    requires |writes| == |keys| && forall i :: 0 <= i < |keys| ==> writes[i] == Write(keys[i], grouped[keys[i]])
    ensures Prepared(run, writes)
  {
    hide FirstBest, Contributes;
    forall w | w in writes
      ensures exists i :: 0 <= i < |run.accepted|
                && FirstBest(run, |run.accepted|, w.key, i) && w.item == ItemOf(run.accepted[i])
    {
      var k :| 0 <= k < |writes| && writes[k] == w;
      assert keys[k] in grouped;
      assert Holds(run, |run.accepted|, w.key, grouped);
    }
    forall m, key | m in run.accepted && Contributes(run, m, key) ensures exists w :: w in writes && w.key == key {
      assert Holds(run, |run.accepted|, key, grouped);
      assert key in keys;
      var k :| 0 <= k < |keys| && keys[k] == key;
      assert writes[k] in writes;
    }
  }

  // ------------------------------------------------------------ The stored rows

  const EMPTY_ROW: Row := Row(None, None, None, None, 0)

  /** One `INSERT … ON CONFLICT DO UPDATE … WHERE`; metadata columns are not touched. */
  function Upsert(rows: map<Pair, Row>, w: Write): map<Pair, Row> {
    var s := w.item.score;
    var before := if w.key in rows then rows[w.key] else EMPTY_ROW;
    if w.key !in rows || Replaces(s, before) then
      rows[w.key := Row(Some(s.final), Some(s.confidence), s.blocking, Some(w.item.bestImage), before.metadata)]
    else rows
  }

  function UpsertAll(rows: map<Pair, Row>, writes: seq<Write>): map<Pair, Row> {
    if writes == [] then rows else Upsert(UpsertAll(rows, writes[..|writes| - 1]), writes[|writes| - 1])
  }

  ghost predicate WrittenTo(writes: seq<Write>, key: Pair) {
    exists w :: w in writes && w.key == key
  }

  /**
    What upserts leave alone: rows of other pairs, the metadata of the written
    ones, and every row's place in the table. A new row has no metadata.
  */
  ghost predicate TouchesImageColumnsOnly(rows: map<Pair, Row>, writes: seq<Write>, after: map<Pair, Row>) {
    && (forall key :: key in after <==> key in rows || WrittenTo(writes, key))
    && (forall key :: key in rows && !WrittenTo(writes, key) ==> after[key] == rows[key])
    && (forall key :: key in after ==> after[key].metadata == if key in rows then rows[key].metadata else 0)
  }

  predicate ImageColumnsOf(row: Row, w: Write) {
    && row.final == Some(w.item.score.final) && row.confidence == Some(w.item.score.confidence)
    && row.blocking == w.item.score.blocking && row.bestImage == Some(w.item.bestImage)
  }

  /** The image columns of a row are its old ones, or all those of one write to it. */
  ghost predicate ImageColumnsOfOneWrite(rows: map<Pair, Row>, writes: seq<Write>, after: map<Pair, Row>) {
    forall key :: key in after ==>
      (key in rows && after[key] == rows[key]) || exists w :: w in writes && w.key == key && ImageColumnsOf(after[key], w)
  }

  lemma {:induction false} UpsertsTouchImageColumnsOnly(rows: map<Pair, Row>, writes: seq<Write>)
    ensures TouchesImageColumnsOnly(rows, writes, UpsertAll(rows, writes))
  {
    hide Replaces;
    if writes != [] {
      var before, last := writes[..|writes| - 1], writes[|writes| - 1];
      UpsertsTouchImageColumnsOnly(rows, before);
      forall key ensures WrittenTo(writes, key) <==> WrittenTo(before, key) || last.key == key {
        OneMoreWritten(before, last, key);
        assert writes == before + [last];
      }
      hide WrittenTo;
    }
  }

  lemma OneMoreWritten(before: seq<Write>, last: Write, key: Pair)
    ensures WrittenTo(before + [last], key) <==> WrittenTo(before, key) || last.key == key
  {
    assert last in before + [last];
  }

  lemma {:induction false} UpsertsKeepRowsWhole(rows: map<Pair, Row>, writes: seq<Write>)
    ensures ImageColumnsOfOneWrite(rows, writes, UpsertAll(rows, writes))
  {
    hide Replaces;
    if writes != [] {
      var before, last := writes[..|writes| - 1], writes[|writes| - 1];
      UpsertsKeepRowsWhole(rows, before);
      assert writes == before + [last] && last in writes && forall w :: w in before ==> w in writes;
    }
  }

  class ScoreTable {
    var rows: map<Pair, Row>

    constructor (rows: map<Pair, Row>)
      ensures this.rows == rows
    {
      this.rows := rows;
    }

    /** `_upsert_match_scores`: the rows in turn, each against what the earlier ones left. */
    method UpsertMatchScores(writes: seq<Write>)
      modifies this
      ensures rows == UpsertAll(old(rows), writes)
      ensures TouchesImageColumnsOnly(old(rows), writes, rows) && ImageColumnsOfOneWrite(old(rows), writes, rows)
    {
      UpsertsTouchImageColumnsOnly(rows, writes);
      UpsertsKeepRowsWhole(rows, writes);
      hide TouchesImageColumnsOnly, ImageColumnsOfOneWrite;
      for i := 0 to |writes|
        invariant rows == UpsertAll(old(rows), writes[..i])
      {
        assert writes[..i + 1][..i] == writes[..i];
        rows := Upsert(rows, writes[i]);
      }
      assert writes[..|writes|] == writes;
    }
  }

  ghost predicate ValidTable(rows: map<Pair, Row>) {
    forall key :: key in rows ==> ValidRow(rows[key])
  }

  ghost predicate ValidWrites(writes: seq<Write>) {
    forall w :: w in writes ==> ValidScore(w.item.score)
  }

  function ScoreAt(rows: map<Pair, Row>, key: Pair): Option<Score> {
    if key in rows then StoredScore(rows[key]) else None
  }

  /** The scores that ever reached `key`: the one stored at the start, and all written ones. */
  ghost predicate Reached(rows: map<Pair, Row>, writes: seq<Write>, key: Pair, s: Score) {
    ScoreAt(rows, key) == Some(s) || exists w :: w in writes && w.key == key && w.item.score == s
  }

  /** The stored triple is the greatest that reached the pair, and is there as soon as one did. */
  ghost predicate StoresMaximum(rows: map<Pair, Row>, writes: seq<Write>, key: Pair, stored: Option<Score>) {
    match stored
    case None => forall s :: !Reached(rows, writes, key, s)
    case Some(m) => Reached(rows, writes, key, m) && forall s :: Reached(rows, writes, key, s) ==> !Better(s, m)
  }

  /** The stored image is that of the last write attaining the stored triple, or the initial one if none did. */
  ghost predicate ImageAttains(rows: map<Pair, Row>, writes: seq<Write>, key: Pair, after: map<Pair, Row>) {
    || (&& key in after && key in rows && after[key] == rows[key]
        && forall w :: w in writes && w.key == key ==> Some(w.item.score) != ScoreAt(rows, key))
    || (key !in after && key !in rows)
    || (exists i :: 0 <= i < |writes| && IsLastBest(writes, key, i) && key in after
          && StoredScore(after[key]) == Some(writes[i].item.score)
          && after[key].bestImage == Some(writes[i].item.bestImage))
  }

  ghost predicate IsLastBest(writes: seq<Write>, key: Pair, i: nat)
    requires i < |writes|
  {
    writes[i].key == key
    && forall j :: i < j < |writes| && writes[j].key == key ==> writes[j].item.score != writes[i].item.score
  }

  lemma {:induction false} UpsertsStayValid(rows: map<Pair, Row>, writes: seq<Write>)
    requires ValidTable(rows) && ValidWrites(writes)
    ensures ValidTable(UpsertAll(rows, writes))
  {
    if writes != [] {
      UpsertsStayValid(rows, writes[..|writes| - 1]);
    }
  }

  /**
    The best-score join. After any number of upserts, in any order, the stored
    triple of a pair is the lexicographic maximum of all that reached it.
  */
  lemma {:induction false} StoredIsMaximum(rows: map<Pair, Row>, writes: seq<Write>, key: Pair)
    requires ValidTable(rows) && ValidWrites(writes)
    ensures StoresMaximum(rows, writes, key, ScoreAt(UpsertAll(rows, writes), key))
  {
    if writes != [] {
      var before, last := writes[..|writes| - 1], writes[|writes| - 1];
      assert writes == before + [last];
      StoredIsMaximum(rows, before, key);
      UpsertsStayValid(rows, before);
      OneMoreWrite(rows, before, last, key, UpsertAll(rows, before));
    }
  }

  lemma OneMoreWrite(rows: map<Pair, Row>, before: seq<Write>, last: Write, key: Pair, now: map<Pair, Row>)
    requires ValidTable(now) && ValidScore(last.item.score)
    requires StoresMaximum(rows, before, key, ScoreAt(now, key))
    ensures StoresMaximum(rows, before + [last], key, ScoreAt(Upsert(now, last), key))
  {
    var s, stored, after := last.item.score, ScoreAt(now, key), ScoreAt(Upsert(now, last), key);
    forall t ensures Reached(rows, before + [last], key, t) <==> Reached(rows, before, key, t) || (last.key == key && s == t) {
      ReachedAppend(rows, before, last, key, t);
    }
    if last.key == key {
      assert after == if stored.None? || !Better(stored.value, s) then Some(s) else stored by {
        if key in now {
          SqlOrderIsMemoryOrder(s, now[key]);
        }
      }
    } else {
      assert after == stored;
    }
    MaximumGrows(rows, before, last, key, stored, after);
  }

  lemma ReachedAppend(rows: map<Pair, Row>, before: seq<Write>, last: Write, key: Pair, t: Score)
    ensures Reached(rows, before + [last], key, t) <==>
              Reached(rows, before, key, t) || (last.key == key && last.item.score == t)
  {
  }

  lemma MaximumGrows(
    rows: map<Pair, Row>, before: seq<Write>, last: Write, key: Pair, stored: Option<Score>, after: Option<Score>)
    requires forall t :: Reached(rows, before + [last], key, t) <==>
                           Reached(rows, before, key, t) || (last.key == key && last.item.score == t)
    requires StoresMaximum(rows, before, key, stored)
    requires after == if last.key != key then stored
                      else if stored.None? || !Better(stored.value, last.item.score) then Some(last.item.score)
                      else stored
    ensures StoresMaximum(rows, before + [last], key, after)
  {
  }

  /** Ties go to the last write in SQL, while in memory they go to the first match. */
  lemma {:induction false} StoredImageAttainsMaximum(rows: map<Pair, Row>, writes: seq<Write>, key: Pair)
    requires ValidTable(rows) && ValidWrites(writes)
    ensures ImageAttains(rows, writes, key, UpsertAll(rows, writes))
  {
    if writes != [] {
      var before, last := writes[..|writes| - 1], writes[|writes| - 1];
      assert writes == before + [last];
      StoredImageAttainsMaximum(rows, before, key);
      UpsertsStayValid(rows, before);
      ImageStep(rows, before, last, key, UpsertAll(rows, before));
    }
  }

  lemma ImageStep(rows: map<Pair, Row>, before: seq<Write>, last: Write, key: Pair, now: map<Pair, Row>)
    requires ValidTable(now) && ValidScore(last.item.score) && ImageAttains(rows, before, key, now)
    ensures ImageAttains(rows, before + [last], key, Upsert(now, last))
  {
    hide Better, ValidScore;
    var writes, after := before + [last], Upsert(now, last);
    if last.key == key && (key !in now || Replaces(last.item.score, now[key])) {
      assert IsLastBest(writes, key, |before|);
      assert StoredScore(after[key]) == Some(writes[|before|].item.score);
    } else {
      assert key in now <==> key in after;
      if last.key == key {
        SqlOrderIsMemoryOrder(last.item.score, now[key]);
        BetterIsTotalOrder(last.item.score, last.item.score, last.item.score);
        assert StoredScore(now[key]) != Some(last.item.score);
      }
      if i :| 0 <= i < |before| && IsLastBest(before, key, i) && key in now
              && StoredScore(now[key]) == Some(before[i].item.score) && now[key].bestImage == Some(before[i].item.bestImage) {
        assert writes[i] == before[i];
        assert IsLastBest(writes, key, i);
      }
    }
  }

  lemma MaximumIsUnique(
    rows: map<Pair, Row>, a: seq<Write>, b: seq<Write>, key: Pair, x: Option<Score>, y: Option<Score>)
    requires forall s :: Reached(rows, a, key, s) <==> Reached(rows, b, key, s)
    requires StoresMaximum(rows, a, key, x) && StoresMaximum(rows, b, key, y)
    ensures x == y
  {
  }

  /** Order and batching do not matter: the same written triples leave the same stored triple. */
  lemma OrderDoesNotMatter(rows: map<Pair, Row>, a: seq<Write>, b: seq<Write>, key: Pair)
    requires ValidTable(rows) && ValidWrites(a) && ValidWrites(b)
    requires forall s :: Reached(rows, a, key, s) <==> Reached(rows, b, key, s)
    ensures ScoreAt(UpsertAll(rows, a), key) == ScoreAt(UpsertAll(rows, b), key)
  {
    StoredIsMaximum(rows, a, key);
    StoredIsMaximum(rows, b, key);
    MaximumIsUnique(rows, a, b, key, ScoreAt(UpsertAll(rows, a), key), ScoreAt(UpsertAll(rows, b), key));
  }

  // -------------------------------------------------------------- Whole histories

  ghost predicate AllPrepared(runs: seq<Run>, prepared: seq<seq<Write>>) {
    && |runs| == |prepared|
    && forall i :: 0 <= i < |runs| ==>
         Prepared(runs[i], prepared[i]) && forall m :: m in runs[i].accepted ==> Acceptable(runs[i], m)
  }

  /** A triple some accepted match of some run has for the pair. */
  ghost predicate Offered(runs: seq<Run>, key: Pair, s: Score) {
    exists i, k :: 0 <= i < |runs| && 0 <= k < |runs[i].accepted|
      && Contributes(runs[i], runs[i].accepted[k], key) && ScoreOf(runs[i].accepted[k]) == s
  }

  lemma {:induction false} FlattenMember(prepared: seq<seq<Write>>, w: Write)
    ensures w in Flatten(prepared) <==> exists i :: 0 <= i < |prepared| && w in prepared[i]
  {
    if prepared != [] {
      FlattenMember(prepared[1..], w);
      if i :| 0 <= i < |prepared| && w in prepared[i] {
        assert i > 0 ==> w in prepared[1..][i - 1];
      }
    }
  }

  lemma WrittenWasOffered(runs: seq<Run>, prepared: seq<seq<Write>>, w: Write)
    requires AllPrepared(runs, prepared) && w in Flatten(prepared)
    ensures Offered(runs, w.key, w.item.score) && ValidScore(w.item.score)
  {
    FlattenMember(prepared, w);
    var i :| 0 <= i < |prepared| && w in prepared[i];
    var run := runs[i];
    assert Prepared(run, prepared[i]);
    var k :| 0 <= k < |run.accepted| && FirstBest(run, |run.accepted|, w.key, k) && w.item == ItemOf(run.accepted[k]);
    assert run.accepted[k] in run.accepted;
    ScoresAreValid(run.accepted[k]);
  }

  /** Every offered triple is matched or beaten by one that was written. */
  lemma OfferedIsCovered(runs: seq<Run>, prepared: seq<seq<Write>>, key: Pair, s: Score)
    returns (w: Write)
    requires AllPrepared(runs, prepared) && Offered(runs, key, s)
    ensures w in Flatten(prepared) && w.key == key && !Better(s, w.item.score)
  {
    var i, k :| 0 <= i < |runs| && 0 <= k < |runs[i].accepted|
      && Contributes(runs[i], runs[i].accepted[k], key) && ScoreOf(runs[i].accepted[k]) == s;
    var run := runs[i];
    assert Prepared(run, prepared[i]) && run.accepted[k] in run.accepted;
    w :| w in prepared[i] && w.key == key;
    FlattenMember(prepared, w);
    var best :| 0 <= best < |run.accepted|
      && FirstBest(run, |run.accepted|, key, best) && w.item == ItemOf(run.accepted[best]);
    BetterIsTotalOrder(s, w.item.score, s);
  }

  /**
    Over any history of runs, without clearing in between: the stored triple of
    a pair is the lexicographic maximum of the initial one and of all the triples
    that accepted matches of any run gave it.
  */
  lemma HistoryStoresMaximum(rows: map<Pair, Row>, runs: seq<Run>, prepared: seq<seq<Write>>, key: Pair)
    requires ValidTable(rows) && AllPrepared(runs, prepared)
    ensures match ScoreAt(UpsertAll(rows, Flatten(prepared)), key)
            case None => ScoreAt(rows, key).None? && forall s :: !Offered(runs, key, s)
            case Some(m) =>
              && (ScoreAt(rows, key) == Some(m) || Offered(runs, key, m))
              && (ScoreAt(rows, key).Some? ==> !Better(ScoreAt(rows, key).value, m))
              && forall s :: Offered(runs, key, s) ==> !Better(s, m)
  {
    hide Better, AllPrepared, Offered, ValidScore;
    var writes := Flatten(prepared);
    forall w | w in writes ensures ValidScore(w.item.score) && Offered(runs, w.key, w.item.score) {
      WrittenWasOffered(runs, prepared, w);
    }
    StoredIsMaximum(rows, writes, key);
    var stored := ScoreAt(UpsertAll(rows, writes), key);
    if ScoreAt(rows, key).Some? {
      assert Reached(rows, writes, key, ScoreAt(rows, key).value);
    }
    forall s | Offered(runs, key, s) ensures stored.Some? && !Better(s, stored.value) {
      var w := OfferedIsCovered(runs, prepared, key, s);
      assert Reached(rows, writes, key, w.item.score);
      BetterIsTotalOrder(s, stored.value, w.item.score);
      BetterIsTotalOrder(w.item.score, stored.value, s);
      BetterIsTotalOrder(stored.value, w.item.score, s);
    }
  }
}
