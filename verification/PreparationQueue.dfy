/**
  Bounded preparation of candidate images ahead of the matching loop
  (matching_pipeline/image_matching/run_image_matching.py). A future is known by
  the index of its candidate.
*/
module PreparationQueues {
  import opened Results

  /** The candidates from `from` up to `to` that need preparation. */
  function Needing(needs: seq<bool>, from: nat, to: nat): set<nat>
    requires to <= |needs|
  {
    set j | from <= j < to && needs[j]
  }

  /** The same, in order. */
  function NeedingInOrder(needs: seq<bool>, to: nat): seq<nat>
    requires to <= |needs|
  {
    if to == 0 then [] else NeedingInOrder(needs, to - 1) + if needs[to - 1] then [to - 1] else []
  }

  lemma {:induction false} InOrderIsIncreasing(needs: seq<bool>, to: nat)
    requires to <= |needs|
    ensures var s := NeedingInOrder(needs, to);
            && (forall i, j :: 0 <= i < j < |s| ==> s[i] < s[j])
            && (forall x :: x in s <==> x in Needing(needs, 0, to))
  {
    if to > 0 {
      InOrderIsIncreasing(needs, to - 1);
      var before := NeedingInOrder(needs, to - 1);
      assert forall i :: 0 <= i < |before| ==> before[i] in Needing(needs, 0, to - 1);
    }
  }

  class PreparationQueue {
    const needs: seq<bool>
    const workers: nat
    var futures: set<nat>
    var next: nat
    var submitted: seq<nat>

    constructor (needs: seq<bool>, workers: nat)
      requires workers > 0
      ensures this.needs == needs && this.workers == workers
      ensures futures == {} && next == 0 && submitted == [] && Window(0)
    {
      this.needs, this.workers := needs, workers;
      futures, next, submitted := {}, 0, [];
    }

    /** When the loop stands at `current`, exactly the submitted candidates still ahead are held. */
    ghost predicate Window(current: nat)
      reads this
    {
      && workers > 0 && current <= next <= |needs|
      && futures == Needing(needs, current, next) && |futures| <= workers
      && submitted == NeedingInOrder(needs, next)
    }

    /** The queue is full, or everything was submitted. */
    ghost predicate Filled()
      reads this
    {
      |futures| == workers || next == |needs|
    }

    /** A filled window always reaches beyond the candidate the loop stands at. */
    lemma FilledReachesAhead(current: nat)
      requires Window(current) && Filled() && current < |needs|
      ensures current < next
    {
    }

    /** `fill_candidate_preparation_queue` */
    method Fill(ghost current: nat)
      requires Window(current)
      modifies this`futures, this`next, this`submitted
      ensures Window(current) && Filled()
      ensures old(futures) <= futures && old(next) <= next
    {
      while |futures| < workers && next < |needs|
        invariant Window(current) && old(futures) <= futures && old(next) <= next
      {
        var index := next;
        next := next + 1;
        assert Needing(needs, current, next) == Needing(needs, current, index) + if needs[index] then {index} else {};
        if !needs[index] {
          continue;
        }
        futures := futures + {index};
        submitted := submitted + [index];
      }
    }

    /**
      Takes the future of the candidate the loop has reached, then refills. A
      candidate that needs preparation always finds its future; one that does
      not, never does.
    */
    method Take(current: nat) returns (found: bool)
      requires Window(current) && Filled() && current < |needs|
      modifies this`futures, this`next, this`submitted
      ensures found == needs[current]
      ensures Window(current + 1) && Filled()
      ensures |futures| <= workers
    {
      FilledReachesAhead(current);
      assert Needing(needs, current, next)
          == Needing(needs, current + 1, next) + if needs[current] then {current} else {};
      found := current in futures;
      futures := futures - {current};
      Fill(current + 1);
    }
  }

  // ------------------------------------------------------------------- The two loops

  /** How a pair ends: an exception, a rejection, or an accepted match. */
  datatype Outcome = Raised | Rejected | Accepted

  datatype Candidate = Candidate(cached: bool, outcome: Outcome)

  /** `extracts`: whether the auction image itself yields features. */
  datatype Auction = Auction(id: nat, extracts: bool, candidates: seq<Candidate>)

  datatype Totals = Totals(processed: seq<nat>, accepted: seq<(nat, nat)>, pairs: nat, failedImages: nat, failedPairs: nat)

  predicate NoPairFailed(a: Auction) {
    forall c :: c in a.candidates ==> !c.outcome.Raised?
  }

  function AcceptedOf(a: Auction, n: nat): seq<(nat, nat)>
    requires n <= |a.candidates|
  {
    if n == 0 then []
    else AcceptedOf(a, n - 1) + if a.candidates[n - 1].outcome.Accepted? then [(a.id, n - 1)] else []
  }

  function FailedOf(a: Auction, n: nat): nat
    requires n <= |a.candidates|
  {
    if n == 0 then 0 else FailedOf(a, n - 1) + if a.candidates[n - 1].outcome.Raised? then 1 else 0
  }

  lemma {:induction false} FailuresCounted(a: Auction, n: nat)
    requires n <= |a.candidates|
    ensures FailedOf(a, n) == 0 <==> forall i :: 0 <= i < n ==> !a.candidates[i].outcome.Raised?
  {
    if n > 0 {
      FailuresCounted(a, n - 1);
    }
  }

  /**
    The totals after `n` auctions: an image whose extraction failed contributes
    nothing else; an image is processed exactly when it was extracted and none of
    its pairs failed; every accepted pair is kept either way.
  */
  function TotalsAfter(auctions: seq<Auction>, n: nat): Totals
    requires n <= |auctions|
  {
    if n == 0 then Totals([], [], 0, 0, 0)
    else
      var t, a := TotalsAfter(auctions, n - 1), auctions[n - 1];
      if !a.extracts then t.(failedImages := t.failedImages + 1)
      else
        Totals(t.processed + (if NoPairFailed(a) then [a.id] else []),
               t.accepted + AcceptedOf(a, |a.candidates|),
               t.pairs + |a.candidates|,
               t.failedImages,
               t.failedPairs + FailedOf(a, |a.candidates|))
  }

  function NeedsPreparation(a: Auction, useCache: bool): seq<bool> {
    seq(|a.candidates|, i requires 0 <= i < |a.candidates| => !(useCache && a.candidates[i].cached))
  }

  /**
    The candidates of one auction image. `missing` is the "Missing prepared
    image" error: it never happens.
  */
  method MatchCandidates(a: Auction, useCache: bool, queue: PreparationQueue)
    returns (accepted: seq<(nat, nat)>, failed: nat, missing: bool)
    requires queue.needs == NeedsPreparation(a, useCache) && queue.Window(0) && queue.Filled()
    modifies queue`futures, queue`next, queue`submitted
    ensures !missing
    ensures accepted == AcceptedOf(a, |a.candidates|) && failed == FailedOf(a, |a.candidates|)
    ensures queue.submitted == NeedingInOrder(queue.needs, |queue.needs|) && queue.futures == {}
    ensures forall i :: i in queue.submitted <==> 0 <= i < |a.candidates| && !(useCache && a.candidates[i].cached)
    ensures forall p, q :: 0 <= p < q < |queue.submitted| ==> queue.submitted[p] < queue.submitted[q]
  {
    InOrderIsIncreasing(queue.needs, |queue.needs|);
    accepted, failed, missing := [], 0, false;
    for i := 0 to |a.candidates|
      invariant queue.Window(i) && queue.Filled() && !missing
      invariant accepted == AcceptedOf(a, i) && failed == FailedOf(a, i)
    {
      var prepared := queue.Take(i);
      if !useCache && !prepared {
        missing := true;
      }
      match a.candidates[i].outcome {
        case Raised => failed := failed + 1;
        case Rejected =>
        case Accepted => accepted := accepted + [(a.id, i)];
      }
    }
  }

  /** `run_image_matching`, for any mix of cached and uncached candidates and any number of resize workers. */
  method RunImageMatching(auctions: seq<Auction>, useCache: bool, workers: nat) returns (t: Totals, missing: bool)
    requires workers > 0
    ensures !missing && t == TotalsAfter(auctions, |auctions|)
  {
    t, missing := Totals([], [], 0, 0, 0), false;
    for n := 0 to |auctions|
      invariant t == TotalsAfter(auctions, n) && !missing
    {
      var a := auctions[n];
      var queue := new PreparationQueue(NeedsPreparation(a, useCache), workers);
      queue.Fill(0);
      if !a.extracts {
        t := t.(failedImages := t.failedImages + 1);
        continue;
      }
      var accepted, failed;
      accepted, failed, missing := MatchCandidates(a, useCache, queue);
      FailuresCounted(a, |a.candidates|);
      t := Totals(
        if failed == 0 then t.processed + [a.id] else t.processed,
        t.accepted + accepted, t.pairs + |a.candidates|, t.failedImages, t.failedPairs + failed);
    }
  }

  /** Only ids of extracted images without a failed pair are ever reported as processed. */
  lemma {:induction false} ProcessedMeansClean(auctions: seq<Auction>, n: nat, id: nat)
    requires n <= |auctions|
    ensures id in TotalsAfter(auctions, n).processed <==>
              exists i :: 0 <= i < n && auctions[i].id == id && auctions[i].extracts && NoPairFailed(auctions[i])
  {
    if n > 0 {
      ProcessedMeansClean(auctions, n - 1, id);
      assert TotalsAfter(auctions, n).processed == TotalsAfter(auctions, n - 1).processed
        + if auctions[n - 1].extracts && NoPairFailed(auctions[n - 1]) then [auctions[n - 1].id] else [];
    }
  }

  // ------------------------------------------------------- What the totals count

  /** Candidate `k` of image `i` was matched, and its pair ended in one of these ways. */
  predicate Ended(auctions: seq<Auction>, n: nat, i: nat, k: nat, outcomes: set<Outcome>)
    requires n <= |auctions|
  {
    i < n && auctions[i].extracts && k < |auctions[i].candidates| && auctions[i].candidates[k].outcome in outcomes
  }

  /** The place of a candidate: its image and its index there. */
  datatype Position = Position(image: nat, candidate: nat)

  predicate Earlier(a: Position, b: Position) {
    a.image < b.image || (a.image == b.image && a.candidate < b.candidate)
  }

  ghost predicate Rising(at: seq<Position>) {
    forall p, q :: 0 <= p < q < |at| ==> Earlier(at[p], at[q])
  }

  /** `at` lists the positions of all matched candidates that ended so, each once, in order. */
  ghost predicate Enumerates(auctions: seq<Auction>, n: nat, outcomes: set<Outcome>, at: seq<Position>)
    requires n <= |auctions|
  {
    Rising(at) && forall x :: x in at <==> Ended(auctions, n, x.image, x.candidate, outcomes)
  }

  function EndedOf(a: Auction, n: nat, i: nat, outcomes: set<Outcome>): seq<Position>
    requires n <= |a.candidates|
  {
    if n == 0 then []
    else EndedOf(a, n - 1, i, outcomes) + if a.candidates[n - 1].outcome in outcomes then [Position(i, n - 1)] else []
  }

  lemma RisingTogether(first: seq<Position>, second: seq<Position>)
    requires Rising(first) && Rising(second) && forall x, y :: x in first && y in second ==> Earlier(x, y)
    ensures Rising(first + second)
  {
  }

  lemma {:induction false} EndedOfExactly(a: Auction, n: nat, i: nat, outcomes: set<Outcome>)
    requires n <= |a.candidates|
    ensures Rising(EndedOf(a, n, i, outcomes))
    ensures forall x :: x in EndedOf(a, n, i, outcomes) <==>
              x.image == i && x.candidate < n && a.candidates[x.candidate].outcome in outcomes
  {
    if n > 0 {
      EndedOfExactly(a, n - 1, i, outcomes);
      RisingTogether(EndedOf(a, n - 1, i, outcomes), if a.candidates[n - 1].outcome in outcomes then [Position(i, n - 1)] else []);
      hide Rising;
    }
  }

  function Positions(auctions: seq<Auction>, n: nat, outcomes: set<Outcome>): seq<Position>
    requires n <= |auctions|
  {
    if n == 0 then []
    else
      var a := auctions[n - 1];
      Positions(auctions, n - 1, outcomes) + if a.extracts then EndedOf(a, |a.candidates|, n - 1, outcomes) else []
  }

  lemma {:induction false} PositionsEnumerate(auctions: seq<Auction>, n: nat, outcomes: set<Outcome>)
    requires n <= |auctions|
    ensures Enumerates(auctions, n, outcomes, Positions(auctions, n, outcomes))
  {
    if n > 0 {
      var a := auctions[n - 1];
      var more := if a.extracts then EndedOf(a, |a.candidates|, n - 1, outcomes) else [];
      PositionsEnumerate(auctions, n - 1, outcomes);
      EndedOfExactly(a, |a.candidates|, n - 1, outcomes);
      hide EndedOf;
      RisingTogether(Positions(auctions, n - 1, outcomes), more);
      hide Rising;
    }
  }

  /** The accepted pairs of these positions are reported under their images' ids. */
  ghost predicate ReportedAs(auctions: seq<Auction>, n: nat, accepted: seq<(nat, nat)>, at: seq<Position>)
    requires n <= |auctions|
  {
    |accepted| == |at|
    && forall q :: 0 <= q < |at| ==> at[q].image < n && accepted[q] == (auctions[at[q].image].id, at[q].candidate)
  }

  lemma {:induction false} ListedOfOne(a: Auction, n: nat, i: nat)
    requires n <= |a.candidates|
    ensures var at := EndedOf(a, n, i, {Accepted});
            && |at| == |AcceptedOf(a, n)|
            && forall q :: 0 <= q < |at| ==> at[q].image == i && AcceptedOf(a, n)[q] == (a.id, at[q].candidate)
  {
    if n > 0 {
      ListedOfOne(a, n - 1, i);
    }
  }

  lemma {:induction false} ListedOfAll(auctions: seq<Auction>, n: nat)
    requires n <= |auctions|
    ensures ReportedAs(auctions, n, TotalsAfter(auctions, n).accepted, Positions(auctions, n, {Accepted}))
  {
    if n > 0 {
      hide AcceptedOf, EndedOf, FailedOf, NoPairFailed;
      var a := auctions[n - 1];
      var before, more := TotalsAfter(auctions, n - 1), if a.extracts then AcceptedOf(a, |a.candidates|) else [];
      var at := if a.extracts then EndedOf(a, |a.candidates|, n - 1, {Accepted}) else [];
      ListedOfAll(auctions, n - 1);
      ListedOfOne(a, |a.candidates|, n - 1);
      assert TotalsAfter(auctions, n).accepted == before.accepted + more;
      assert Positions(auctions, n, {Accepted}) == Positions(auctions, n - 1, {Accepted}) + at;
      hide TotalsAfter, Positions;
    }
  }

  lemma {:induction false} CountedOfOne(a: Auction, n: nat, i: nat)
    requires n <= |a.candidates|
    ensures |EndedOf(a, n, i, {Raised})| == FailedOf(a, n) && |EndedOf(a, n, i, {Raised, Rejected, Accepted})| == n
  {
    if n > 0 {
      CountedOfOne(a, n - 1, i);
    }
  }

  lemma {:induction false} CountedOfAll(auctions: seq<Auction>, n: nat)
    requires n <= |auctions|
    ensures TotalsAfter(auctions, n).failedPairs == |Positions(auctions, n, {Raised})|
    ensures TotalsAfter(auctions, n).pairs == |Positions(auctions, n, {Raised, Rejected, Accepted})|
  {
    if n > 0 {
      CountedOfAll(auctions, n - 1);
      CountedOfOne(auctions[n - 1], |auctions[n - 1].candidates|, n - 1);
      hide FailedOf, EndedOf;
    }
  }

  /**
    Every accepted pair is reported, once and in order, under its image's id; the
    failed pairs and all the matched pairs are counted, each once.
  */
  lemma PairsExactly(auctions: seq<Auction>, n: nat)
    returns (accepted: seq<Position>, raised: seq<Position>, all: seq<Position>)
    requires n <= |auctions|
    ensures Enumerates(auctions, n, {Accepted}, accepted) && Enumerates(auctions, n, {Raised}, raised)
    ensures Enumerates(auctions, n, {Raised, Rejected, Accepted}, all)
    ensures ReportedAs(auctions, n, TotalsAfter(auctions, n).accepted, accepted)
    ensures TotalsAfter(auctions, n).failedPairs == |raised| && TotalsAfter(auctions, n).pairs == |all|
  {
    hide Enumerates, ReportedAs;
    accepted, raised := Positions(auctions, n, {Accepted}), Positions(auctions, n, {Raised});
    all := Positions(auctions, n, {Raised, Rejected, Accepted});
    PositionsEnumerate(auctions, n, {Accepted});
    PositionsEnumerate(auctions, n, {Raised});
    PositionsEnumerate(auctions, n, {Raised, Rejected, Accepted});
    ListedOfAll(auctions, n);
    CountedOfAll(auctions, n);
  }

  lemma {:induction false} FailedImagesExactly(auctions: seq<Auction>, n: nat)
    requires n <= |auctions|
    ensures TotalsAfter(auctions, n).failedImages == |set i | 0 <= i < n && !auctions[i].extracts|
  {
    if n > 0 {
      FailedImagesExactly(auctions, n - 1);
      assert (set i | 0 <= i < n && !auctions[i].extracts)
          == (set i | 0 <= i < n - 1 && !auctions[i].extracts) + if auctions[n - 1].extracts then {} else {n - 1};
    }
  }

  /** The processed images are reported once each, in order. */
  lemma {:induction false} ProcessedInOrder(auctions: seq<Auction>, n: nat) returns (at: seq<nat>)
    requires n <= |auctions|
    ensures var processed := TotalsAfter(auctions, n).processed;
            |processed| == |at| && forall q :: 0 <= q < |at| ==> at[q] < n && processed[q] == auctions[at[q]].id
    ensures forall p, q :: 0 <= p < q < |at| ==> at[p] < at[q]
    ensures forall i :: i in at <==> 0 <= i < n && auctions[i].extracts && NoPairFailed(auctions[i])
  {
    if n == 0 {
      at := [];
    } else {
      at := ProcessedInOrder(auctions, n - 1);
      if auctions[n - 1].extracts && NoPairFailed(auctions[n - 1]) {
        at := at + [n - 1];
      }
    }
  }
}
