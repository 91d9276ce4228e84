/**
  Page envelopes, their acknowledgement, retries and polling
  (telemetry/sync_codec.py, telemetry/sync_http.py).

  The network and the receiver are an arbitrary script: the n-th request is
  answered `replies(n)`, the n-th status poll `polls(n)`. A content hash is
  idealised as injective, so it is the content itself.
*/
module SyncHttp {
  import opened Results
  import opened SyncErrors
  import opened SyncBudget
  import opened SyncGraph
  import opened SyncCatalogs
  import opened SyncData

  const PAGE_RETRIES: nat := 3
  const APPLY_POLLS: nat := 11

  // ------------------------------------------------------------------ Envelopes

  datatype Phase = InventoryPhase | DataPhase

  datatype Payload = InventoryPayload(hashes: Hashes) | DataPayload(content: Content)

  datatype Manifest = Manifest(phase: Phase, pageCount: nat, operation: seq<Payload>)

  datatype Envelope = Envelope(
    syncId: nat,
    phase: Phase,
    number: nat,
    pageCount: nat,
    content: Payload,
    previous: Option<Payload>,
    summary: Option<nat>,
    manifest: Option<Manifest>)

  /** What fixes every envelope of one operation, and the two lengths of an encoded envelope. */
  datatype Job = Job(syncId: nat, summary: nat, rawLength: Envelope -> nat, gzipLength: Envelope -> nat)

  /** `_page_envelope`: pages are chained by the previous hash; the last one lists them all. */
  function EnvelopeAt(job: Job, phase: Phase, pages: seq<Payload>, n: nat): Envelope
    requires n < |pages|
  {
    Envelope(
      job.syncId, phase, n, |pages|, pages[n],
      if n == 0 then None else Some(pages[n - 1]),
      if phase.InventoryPhase? && n == 0 then Some(job.summary) else None,
      if n == |pages| - 1 then Some(Manifest(phase, |pages|, pages)) else None)
  }

  predicate Encodable(job: Job, e: Envelope) {
    job.rawLength(e) <= MAX_UNCOMPRESSED_BYTES && job.gzipLength(e) <= MAX_COMPRESSED_BYTES
  }

  /** The compressed bytes of the first `n` pages of a phase. */
  function PhaseBytes(job: Job, phase: Phase, pages: seq<Payload>, n: nat): nat
    requires n <= |pages|
  {
    if n == 0 then 0 else PhaseBytes(job, phase, pages, n - 1) + job.gzipLength(EnvelopeAt(job, phase, pages, n - 1))
  }

  predicate PhaseEncodable(job: Job, phase: Phase, pages: seq<Payload>) {
    forall n: nat :: n < |pages| ==> Encodable(job, EnvelopeAt(job, phase, pages, n))
  }

  /** `_preflight_phase_pages`: succeeds exactly when every page of the phase can be encoded. */
  method PreflightPhasePages(job: Job, phase: Phase, pages: seq<Payload>) returns (r: Result<nat, SyncError>)
    ensures r.Ok? <==> PhaseEncodable(job, phase, pages)
    ensures r.Ok? ==> r.value == PhaseBytes(job, phase, pages, |pages|)
    ensures r.Err? ==> r.error == UnsendableClosure
  {
    var total := 0;
    for n := 0 to |pages|
      invariant total == PhaseBytes(job, phase, pages, n)
      invariant forall k: nat :: k < n ==> Encodable(job, EnvelopeAt(job, phase, pages, k))
    {
      var e := EnvelopeAt(job, phase, pages, n);
      if !(job.rawLength(e) <= MAX_UNCOMPRESSED_BYTES && job.gzipLength(e) <= MAX_COMPRESSED_BYTES) {
        return Err(UnsendableClosure);
      }
      total := total + job.gzipLength(e);
    }
    return Ok(total);
  }

  // ----------------------------------------------------------- Acknowledgements

  /** A JSON value where a boolean belongs. */
  datatype Flag = True | False | OtherValue

  datatype Ack = Ack(
    syncId: Option<nat>,
    phase: Option<Phase>,
    pageNumber: Option<int>,
    payload: Option<Envelope>,
    complete: Flag,
    accepted: Flag,
    applying: bool,
    pollAfterSeconds: Option<int>,
    needed: Needed)

  datatype Body = Oversized | NotJson | NotAnObject | Acknowledgement(ack: Ack)

  datatype Reply = Unreachable | HttpError(code: int) | Response(status: int, body: Body)

  predicate FinalDataPage(e: Envelope) {
    e.phase.DataPhase? && e.number == e.pageCount - 1
  }

  predicate NamesPage(ack: Ack, e: Envelope) {
    && ack.syncId == Some(e.syncId) && ack.phase == Some(e.phase)
    && ack.pageNumber == Some(e.number) && ack.payload == Some(e)
  }

  predicate AcceptedForLater(e: Envelope, status: int, ack: Ack) {
    FinalDataPage(e) && status == 202 && ack.accepted.True? && ack.applying
  }

  /** The checks of `_post_page`, in order. */
  function JudgeReply(e: Envelope, reply: Reply): Result<Ack, SyncError> {
    match reply
    case Unreachable => Err(Transport)
    case HttpError(code) => Err(HttpStatus(code))
    case Response(status, body) =>
      if status < 200 || status >= 300 then Err(HttpStatus(status))
      else if !body.Acknowledgement? then Err(ProtocolViolation)
      else if !NamesPage(body.ack, e) then Err(ProtocolViolation)
      else if AcceptedForLater(e, status, body.ack) then
        if !body.ack.complete.False? || body.ack.pollAfterSeconds != Some(60) then Err(ProtocolViolation) else Ok(body.ack)
      else if body.ack.complete != (if FinalDataPage(e) then True else False) then Err(ProtocolViolation)
      else if e.phase.InventoryPhase? && body.ack.needed.NotObject? then Err(ProtocolViolation)
      else Ok(body.ack)
  }

  /**
    An accepted acknowledgement is a success of this very page; only the last data
    page can complete, and if it does not it is to be polled for. A status error
    tells the status the receiver gave.
  */
  lemma AcceptedAcknowledgement(e: Envelope, reply: Reply)
    ensures var r := JudgeReply(e, reply);
            && (r.Ok? ==> NamesPage(r.value, e) && (r.value.complete.True? ==> FinalDataPage(e)))
            && (r.Ok? && FinalDataPage(e) && !r.value.complete.True? ==> r.value.accepted.True?)
            && (r.Ok? ==> reply.Response? && 200 <= reply.status < 300)
            && (r.Ok? && FinalDataPage(e) && !r.value.complete.True? ==>
                  reply.status == 202 && r.value.applying && r.value.pollAfterSeconds == Some(60))
            && (r.Ok? && e.phase.InventoryPhase? ==> r.value.needed.Needed?)
            && (r.Err? && r.error.HttpStatus? ==>
                  reply == HttpError(r.error.code)
                  || (reply.Response? && reply.status == r.error.code && !(200 <= r.error.code < 300)))
            && (r == Err(Transport) <==> reply.Unreachable?)
            && (r.Err? ==> r.error in {Transport, ProtocolViolation} || r.error.HttpStatus?)
  {
  }

  /** A success answering this page; the last data page may be taken on for later, with a poll in a minute. */
  predicate ProperAnswer(e: Envelope, status: int, ack: Ack) {
    var last := e.phase.DataPhase? && e.number + 1 == e.pageCount;
    && 200 <= status < 300
    && ack.syncId == Some(e.syncId) && ack.phase == Some(e.phase) && ack.pageNumber == Some(e.number) && ack.payload == Some(e)
    && (if last && status == 202 && ack.accepted == True && ack.applying
        then ack.complete == False && ack.pollAfterSeconds == Some(60)
        else ack.complete == if last then True else False)
    && (e.phase.InventoryPhase? ==> ack.needed != NotObject)
  }

  /** Exactly the proper answers are accepted, and every other reply is named for what it is. */
  lemma RepliesAreJudgedExactly(e: Envelope, reply: Reply)
    ensures var r := JudgeReply(e, reply);
            && (r.Ok? <==> reply.Response? && reply.body.Acknowledgement? && ProperAnswer(e, reply.status, reply.body.ack))
            && (r.Ok? ==> r.value == reply.body.ack)
            && (r == Err(Transport) <==> reply == Unreachable)
            && (forall code :: r == Err(HttpStatus(code)) <==>
                  reply == HttpError(code) || (reply.Response? && reply.status == code && !(200 <= code < 300)))
            && (r.Err? && r.error != Transport && !r.error.HttpStatus? ==> r.error == ProtocolViolation)
  {
  }

  // -------------------------------------------------------------- Status polling

  datatype OperationStatus = Applying | Complete | Superseded | Failed | Unknown

  datatype PollReply =
    | PollUnreachable
    | PollHttpError(code: int)
    | PollMalformed
    | PollAnswer(status: OperationStatus, complete: Flag, failed: Flag, operation: Option<seq<Payload>>)

  datatype PollOutcome = Pending | Done | Broken(error: SyncError)

  /** `_get_operation_status` and one round of `_wait_for_async_apply`. */
  function JudgePoll(reply: PollReply, operation: seq<Payload>): PollOutcome {
    match reply
    case PollUnreachable => Pending
    case PollHttpError(code) => if RetryableStatus(code) then Pending else Broken(HttpStatus(code))
    case PollMalformed => Broken(ProtocolViolation)
    case PollAnswer(status, complete, failed, digest) =>
      if status.Unknown? then Broken(ProtocolViolation)
      else if complete != (if status.Complete? || status.Superseded? then True else False) then Broken(ProtocolViolation)
      else if failed != (if status.Failed? then True else False) then Broken(ProtocolViolation)
      else if complete.True? && digest != Some(operation) then Broken(ProtocolViolation)
      else if complete.True? then Done
      else if failed.True? then Broken(AsyncApply)
      else Pending
  }

  /** Statuses that may pass: request timeout, too early, too many requests, and server errors. */
  predicate Passing(code: int) {
    code == 408 || code == 425 || code == 429 || code / 100 == 5
  }

  /** Waiting ends only with a consistent answer: of this operation, or of its failure. */
  lemma PollsSayWhatTheyMean(reply: PollReply, operation: seq<Payload>)
    ensures var o := JudgePoll(reply, operation);
            && (o.Done? <==> reply == PollAnswer(Complete, True, False, Some(operation))
                             || reply == PollAnswer(Superseded, True, False, Some(operation)))
            && (o == Broken(AsyncApply) <==>
                  reply.PollAnswer? && reply == PollAnswer(Failed, False, True, reply.operation))
            && (o.Pending? <==> reply.PollUnreachable? || (reply.PollHttpError? && Passing(reply.code))
                                || (reply.PollAnswer? && reply == PollAnswer(Applying, False, False, reply.operation)))
            && (forall code :: o == Broken(HttpStatus(code)) <==> reply == PollHttpError(code) && !Passing(code))
  {
  }

  // ---------------------------------------------------------- Protocol automaton

  /** Requests carry the reply they got, acknowledgements what was accepted. */
  datatype Event =
    | InventoryReady(pages: seq<Payload>)
    | Posted(envelope: Envelope, bytes: nat, reply: Reply)
    | Acknowledged(envelope: Envelope, ack: Ack)
    | InventoryReleased
    | DataReady(pages: seq<Payload>)
    | Polled(answer: PollReply)

  /** Sending: `next` pages are acknowledged; page `next` was tried `tries` times, and last got `last`. */
  datatype Stage =
    | Idle
    | Sending(
        phase: Phase, inventory: seq<Payload>, pages: seq<Payload>, next: nat, tries: nat, last: Option<Reply>)
    | Released(inventory: seq<Payload>)

  datatype Progress = Progress(stage: Stage, attempted: nat, sent: nat)

  predicate TransientReply(e: Envelope, reply: Reply) {
    JudgeReply(e, reply).Err? && Transient(JudgeReply(e, reply).error)
  }

  /** Page `next` may be tried: for the first time, or again after a transient failure. */
  predicate MayPost(job: Job, stage: Stage, e: Envelope) {
    && stage.Sending? && stage.next < |stage.pages| && stage.tries < PAGE_RETRIES
    && e == EnvelopeAt(job, stage.phase, stage.pages, stage.next) && Encodable(job, e)
    && (stage.tries > 0 ==> stage.last.Some? && TransientReply(e, stage.last.value))
  }

  function Step(job: Job, t: Progress, event: Event): Option<Progress> {
    match (t.stage, event)
    case (Idle, InventoryReady(pages)) =>
      if PhaseEncodable(job, InventoryPhase, pages) then
        Some(t.(stage := Sending(InventoryPhase, pages, pages, 0, 0, None)))
      else None
    case (Sending(_, _, _, _, tries, _), Posted(e, bytes, reply)) =>
      if MayPost(job, t.stage, e) && bytes == job.gzipLength(e) then
        Some(Progress(t.stage.(tries := tries + 1, last := Some(reply)), t.attempted + bytes, t.sent))
      else None
    case (Sending(phase, inventory, pages, next, tries, last), Acknowledged(e, ack)) =>
      if next < |pages| && tries > 0 && e == EnvelopeAt(job, phase, pages, next)
         && last.Some? && JudgeReply(e, last.value) == Ok(ack) then
        Some(Progress(t.stage.(next := next + 1, tries := 0, last := None), t.attempted, t.sent + job.gzipLength(e)))
      else None
    case (Sending(InventoryPhase, inventory, pages, next, _, _), InventoryReleased) =>
      if next == |pages| then Some(t.(stage := Released(inventory))) else None
    case (Released(inventory), DataReady(pages)) =>
      if PhaseEncodable(job, DataPhase, pages) then
        Some(t.(stage := Sending(DataPhase, inventory, pages, 0, 0, None)))
      else None
    case (Sending(DataPhase, _, pages, next, _, _), Polled(_)) =>
      if next == |pages| > 0 then Some(t) else None
    case _ => None
  }

  function Replay(job: Job, log: seq<Event>): Option<Progress> {
    if log == [] then Some(Progress(Idle, 0, 0))
    else
      match Replay(job, log[..|log| - 1])
      case None => None
      case Some(t) => Step(job, t, log[|log| - 1])
  }

  lemma ReplayOneMore(job: Job, log: seq<Event>, event: Event)
    ensures Replay(job, log + [event])
         == (match Replay(job, log) case None => None case Some(t) => Step(job, t, event))
  {
    assert (log + [event])[..|log|] == log;
  }

  lemma {:induction false} PrefixReplays(job: Job, log: seq<Event>, i: nat)
    requires i <= |log| && Replay(job, log).Some?
    ensures Replay(job, log[..i]).Some?
  {
    if i < |log| {
      PrefixReplays(job, log[..|log| - 1], i);
      assert log[..|log| - 1][..i] == log[..i];
    } else {
      assert log[..i] == log;
    }
  }

  /** The replies the log's requests got, in order. */
  function RepliesOf(log: seq<Event>): seq<Reply> {
    if log == [] then []
    else
      var last := log[|log| - 1];
      RepliesOf(log[..|log| - 1]) + if last.Posted? then [last.reply] else []
  }

  function AnswersOf(log: seq<Event>): seq<PollReply> {
    if log == [] then []
    else
      var last := log[|log| - 1];
      AnswersOf(log[..|log| - 1]) + if last.Polled? then [last.answer] else []
  }

  lemma RepliesOneMore(log: seq<Event>, event: Event)
    ensures RepliesOf(log + [event]) == RepliesOf(log) + if event.Posted? then [event.reply] else []
    ensures AnswersOf(log + [event]) == AnswersOf(log) + if event.Polled? then [event.answer] else []
  {
    assert (log + [event])[..|log|] == log;
  }

  // ------------------------------------------------ What every legal log satisfies

  /** The page was posted, and the reply to that very request was accepted. */
  ghost predicate Confirmed(job: Job, log: seq<Event>, e: Envelope) {
    exists ack, reply :: Answered(job, log, e, ack, reply)
  }

  ghost predicate Answered(job: Job, log: seq<Event>, e: Envelope, ack: Ack, reply: Reply) {
    Posted(e, job.gzipLength(e), reply) in log && Acknowledged(e, ack) in log && JudgeReply(e, reply) == Ok(ack)
  }

  ghost predicate ConfirmedUpTo(job: Job, log: seq<Event>, phase: Phase, pages: seq<Payload>, n: nat) {
    n <= |pages| && forall k: nat :: k < n ==> Confirmed(job, log, EnvelopeAt(job, phase, pages, k))
  }

  /** The inventory was encodable as a whole, and every page of it was accepted by the receiver. */
  ghost predicate InventoryDelivered(job: Job, log: seq<Event>, inventory: seq<Payload>) {
    && InventoryReady(inventory) in log && PhaseEncodable(job, InventoryPhase, inventory)
    && ConfirmedUpTo(job, log, InventoryPhase, inventory, |inventory|)
  }

  /** The only announcements in the log are those of the stage. */
  ghost predicate Announces(log: seq<Event>, stage: Stage) {
    && (forall p :: InventoryReady(p) in log ==> !stage.Idle? && stage.inventory == p)
    && (forall p :: DataReady(p) in log ==> stage.Sending? && stage.phase.DataPhase? && stage.pages == p)
  }

  ghost predicate LogExplains(job: Job, log: seq<Event>, stage: Stage) {
    match stage
    case Idle => true
    case Released(inventory) => InventoryDelivered(job, log, inventory)
    case Sending(phase, inventory, pages, next, tries, last) =>
      && (tries > 0 ==>
            && next < |pages| && last.Some?
            && (var e := EnvelopeAt(job, phase, pages, next); Posted(e, job.gzipLength(e), last.value) in log))
      && ConfirmedUpTo(job, log, phase, pages, next)
      && PhaseEncodable(job, phase, pages)
      && (match phase
          case InventoryPhase => inventory == pages && InventoryReady(pages) in log
          case DataPhase => InventoryDelivered(job, log, inventory) && DataReady(pages) in log)
  }

  lemma ConfirmedStays(job: Job, log: seq<Event>, more: seq<Event>, phase: Phase, pages: seq<Payload>, n: nat)
    requires log <= more && ConfirmedUpTo(job, log, phase, pages, n)
    ensures ConfirmedUpTo(job, more, phase, pages, n)
  {
    forall k: nat | k < n ensures Confirmed(job, more, EnvelopeAt(job, phase, pages, k)) {
      var ack, reply :| Answered(job, log, EnvelopeAt(job, phase, pages, k), ack, reply);
      assert Answered(job, more, EnvelopeAt(job, phase, pages, k), ack, reply);
    }
  }

  lemma DeliveredStays(job: Job, log: seq<Event>, more: seq<Event>, inventory: seq<Payload>)
    requires log <= more && InventoryDelivered(job, log, inventory)
    ensures InventoryDelivered(job, more, inventory)
  {
    ConfirmedStays(job, log, more, InventoryPhase, inventory, |inventory|);
  }

  lemma {:induction false} LogExplainsStage(job: Job, log: seq<Event>)
    requires Replay(job, log).Some?
    ensures LogExplains(job, log, Replay(job, log).value.stage)
  {
    if log != [] {
      var before, event := log[..|log| - 1], log[|log| - 1];
      LogExplainsStage(job, before);
      EventExplained(job, before, event, log);
    }
  }

  lemma EventExplained(job: Job, before: seq<Event>, event: Event, log: seq<Event>)
    requires log == before + [event] && Replay(job, before).Some?
    requires LogExplains(job, before, Replay(job, before).value.stage)
    requires Step(job, Replay(job, before).value, event).Some?
    ensures LogExplains(job, log, Step(job, Replay(job, before).value, event).value.stage)
  {
    hide ConfirmedUpTo, InventoryDelivered, PhaseEncodable, EnvelopeAt, JudgeReply, MayPost;
    var stage := Replay(job, before).value.stage;
    match stage {
      case Idle => NothingConfirmed(job, log, InventoryPhase, stage, event);
      case Released(inventory) =>
        DeliveredStays(job, before, log, inventory);
        NothingConfirmed(job, log, DataPhase, stage, event);
      case Sending(phase, inventory, pages, next, tries, last) =>
        ConfirmedStays(job, before, log, phase, pages, next);
        if phase.DataPhase? {
          DeliveredStays(job, before, log, inventory);
        }
        SendingExplained(job, before, event, log, stage);
    }
  }

  lemma NothingConfirmed(job: Job, log: seq<Event>, phase: Phase, stage: Stage, event: Event)
    ensures event.InventoryReady? || event.DataReady? ==> ConfirmedUpTo(job, log, phase, event.pages, 0)
  {
  }

  lemma SendingExplained(job: Job, before: seq<Event>, event: Event, log: seq<Event>, stage: Stage)
    requires log == before + [event] && LogExplains(job, before, stage) && stage.Sending?
    requires ConfirmedUpTo(job, log, stage.phase, stage.pages, stage.next)
    requires stage.phase.DataPhase? ==> InventoryDelivered(job, log, stage.inventory)
    requires Step(job, Progress(stage, 0, 0), event).Some?
    ensures LogExplains(job, log, Step(job, Progress(stage, 0, 0), event).value.stage)
  {
    hide PhaseEncodable, EnvelopeAt, JudgeReply;
    if event.Acknowledged? {
      assert Answered(job, log, event.envelope, event.ack, stage.last.value);
      assert Confirmed(job, log, event.envelope);
    }
  }

  lemma {:induction false} AnnouncementsAreTheStages(job: Job, log: seq<Event>)
    requires Replay(job, log).Some?
    ensures Announces(log, Replay(job, log).value.stage)
  {
    hide PhaseEncodable, EnvelopeAt, JudgeReply, MayPost;
    if log != [] {
      var before, event := log[..|log| - 1], log[|log| - 1];
      assert log == before + [event];
      AnnouncementsAreTheStages(job, before);
    }
  }

  /**
    Whatever happens, and however the run ends: a data page is only ever sent
    after every inventory page was posted and the reply to it accepted, after the
    data pages were announced, all of them encodable, and after the earlier data
    pages were accepted.
  */
  lemma NoDataBeforeInventoryAcknowledged(job: Job, log: seq<Event>, i: nat)
    requires Replay(job, log).Some? && i < |log|
    requires log[i].Posted? && log[i].envelope.phase.DataPhase?
    ensures exists inventory, pages, n: nat ::
              && InventoryDelivered(job, log[..i], inventory)
              && DataReady(pages) in log[..i] && PhaseEncodable(job, DataPhase, pages)
              && n < |pages| && log[i].envelope == EnvelopeAt(job, DataPhase, pages, n)
              && ConfirmedUpTo(job, log[..i], DataPhase, pages, n)
  {
    hide InventoryDelivered, ConfirmedUpTo, PhaseEncodable;
    PrefixReplays(job, log, i);
    PrefixReplays(job, log, i + 1);
    assert log[..i + 1][..i] == log[..i];
    LogExplainsStage(job, log[..i]);
    var stage := Replay(job, log[..i]).value.stage;
    assert stage.Sending? && log[i].envelope == EnvelopeAt(job, DataPhase, stage.pages, stage.next);
  }

  function AttemptedBytes(log: seq<Event>): nat {
    if log == [] then 0
    else AttemptedBytes(log[..|log| - 1]) + (if log[|log| - 1].Posted? then log[|log| - 1].bytes else 0)
  }

  /** The attempts made for one page. */
  function Attempts(log: seq<Event>, phase: Phase, n: nat): nat {
    if log == [] then 0
    else
      var last := log[|log| - 1];
      Attempts(log[..|log| - 1], phase, n)
      + (if last.Posted? && last.envelope.phase == phase && last.envelope.number == n then 1 else 0)
  }

  /** What the attempts at page `n` of `phase` can be in a given stage. */
  ghost predicate AttemptsFit(log: seq<Event>, stage: Stage, phase: Phase, n: nat) {
    var a := Attempts(log, phase, n);
    match stage
    case Idle => a == 0
    case Released(_) => a <= PAGE_RETRIES && (phase.DataPhase? ==> a == 0)
    case Sending(current, _, pages, next, tries, _) =>
      && tries <= PAGE_RETRIES
      && (if phase == current then
            if n > next then a == 0 else if n == next then a == tries else a <= PAGE_RETRIES
          else a <= PAGE_RETRIES && (phase.DataPhase? ==> a == 0))
  }

  lemma {:induction false} AtMostThreeAttempts(job: Job, log: seq<Event>, phase: Phase, n: nat)
    requires Replay(job, log).Some?
    ensures Attempts(log, phase, n) <= PAGE_RETRIES
    ensures AttemptsFit(log, Replay(job, log).value.stage, phase, n)
  {
    hide PhaseEncodable, JudgeReply, Encodable;
    if log != [] {
      AtMostThreeAttempts(job, log[..|log| - 1], phase, n);
    }
  }

  /** Every request for the page, wherever it is in the log, counts. */
  lemma {:induction false} AttemptsCountRequests(log: seq<Event>, phase: Phase, n: nat, at: seq<nat>)
    requires forall p, q :: 0 <= p < q < |at| ==> at[p] < at[q]
    requires forall p :: 0 <= p < |at| ==>
               at[p] < |log| && log[at[p]].Posted? && log[at[p]].envelope.phase == phase && log[at[p]].envelope.number == n
    ensures Attempts(log, phase, n) >= |at|
  {
    if log != [] {
      var last := |log| - 1;
      if at != [] && at[|at| - 1] == last {
        AttemptsCountRequests(log[..last], phase, n, at[..|at| - 1]);
      } else {
        AttemptsCountRequests(log[..last], phase, n, at);
      }
    }
  }

  /** In every run, of any four requests not all are for one page. */
  lemma NoFourthAttempt(job: Job, log: seq<Event>, i: nat, j: nat, k: nat, l: nat)
    requires Replay(job, log).Some? && i < j < k < l < |log|
    ensures !(SamePage(log[i], log[j]) && SamePage(log[j], log[k]) && SamePage(log[k], log[l]))
  {
    if SamePage(log[i], log[j]) && SamePage(log[j], log[k]) && SamePage(log[k], log[l]) {
      var e := log[i].envelope;
      AttemptsCountRequests(log, e.phase, e.number, [i, j, k, l]);
      AtMostThreeAttempts(job, log, e.phase, e.number);
    }
  }

  /** Where the requests so far stand: done, or tries of the current page that failed transiently but for the last. */
  ghost predicate PostsFit(log: seq<Event>, stage: Stage) {
    forall i :: 0 <= i < |log| && log[i].Posted? ==>
      var e, reply := log[i].envelope, log[i].reply;
      match stage
      case Idle => false
      case Released(_) => e.phase.InventoryPhase?
      case Sending(current, _, _, next, tries, last) =>
        if e.phase == current then
          e.number < next || (e.number == next && tries > 0 && (last == Some(reply) || TransientReply(e, reply)))
        else e.phase.InventoryPhase?
  }

  ghost predicate SamePage(a: Event, b: Event) {
    a.Posted? && b.Posted? && a.envelope.phase == b.envelope.phase && a.envelope.number == b.envelope.number
  }

  /** A page is only ever tried again after a transient failure. */
  lemma {:induction false} RetriesFollowTransientFailures(job: Job, log: seq<Event>, i: nat, j: nat)
    requires Replay(job, log).Some? && i < j < |log| && SamePage(log[i], log[j])
    ensures TransientReply(log[i].envelope, log[i].reply)
    ensures match log[i].reply
            case Unreachable => true
            case HttpError(code) => Passing(code)
            case Response(status, _) => Passing(status)
  {
    if j < |log| - 1 {
      RetriesFollowTransientFailures(job, log[..|log| - 1], i, j);
    } else {
      var before := log[..|log| - 1];
      assert before[i] == log[i];
      PostsFitStage(job, before);
      PostedEnvelopes(job, before);
    }
  }

  /** Requests for one page number of a phase carry one envelope as long as the phase lasts. */
  ghost predicate EnvelopesFit(job: Job, log: seq<Event>, stage: Stage) {
    forall i :: 0 <= i < |log| && log[i].Posted? && stage.Sending? && log[i].envelope.phase == stage.phase ==>
      log[i].envelope.number < |stage.pages|
      && log[i].envelope == EnvelopeAt(job, stage.phase, stage.pages, log[i].envelope.number)
  }

  lemma {:induction false} PostedEnvelopes(job: Job, log: seq<Event>)
    requires Replay(job, log).Some?
    ensures EnvelopesFit(job, log, Replay(job, log).value.stage)
  {
    if log != [] {
      hide Step, PostsFit, EnvelopesFit;
      var before, event := log[..|log| - 1], log[|log| - 1];
      assert log == before + [event];
      PostsFitStage(job, before);
      PostedEnvelopes(job, before);
      EnvelopesFitStep(job, before, Replay(job, before).value, event);
    }
  }

  lemma EnvelopesFitStep(job: Job, before: seq<Event>, p: Progress, event: Event)
    requires EnvelopesFit(job, before, p.stage) && PostsFit(before, p.stage) && Step(job, p, event).Some?
    ensures EnvelopesFit(job, before + [event], Step(job, p, event).value.stage)
  {
    hide PhaseEncodable, JudgeReply, Encodable;
  }

  lemma {:induction false} PostsFitStage(job: Job, log: seq<Event>)
    requires Replay(job, log).Some?
    ensures PostsFit(log, Replay(job, log).value.stage)
  {
    hide PhaseEncodable, JudgeReply, Encodable;
    if log != [] {
      var before, event := log[..|log| - 1], log[|log| - 1];
      assert log == before + [event];
      PostsFitStage(job, before);
      PostedEnvelopes(job, before);
    }
  }

  /** Page `k` of the phase was acknowledged before, with this content. */
  ghost predicate SentBefore(log: seq<Event>, e: Envelope, k: nat, content: Payload) {
    exists f: Envelope, ack :: Acknowledged(f, ack) in log && f.phase == e.phase && f.number == k && f.content == content
  }

  /**
    The pages of a phase are chained in every run: each names the content of the
    page acknowledged before it, and the last lists, in order, the contents of all
    of them, its own included.
  */
  lemma PagesAreChained(job: Job, log: seq<Event>, i: nat)
    requires Replay(job, log).Some? && i < |log| && log[i].Posted?
    ensures var e := log[i].envelope;
            && e.syncId == job.syncId && e.number < e.pageCount && log[i].bytes == job.gzipLength(e)
            && job.rawLength(e) <= MAX_UNCOMPRESSED_BYTES && job.gzipLength(e) <= MAX_COMPRESSED_BYTES
            && (e.previous.Some? <==> e.number > 0)
            && (e.number > 0 ==> SentBefore(log[..i], e, e.number - 1, e.previous.value))
            && e.summary == (if e.phase.InventoryPhase? && e.number == 0 then Some(job.summary) else None)
            && (e.manifest.Some? <==> e.number + 1 == e.pageCount)
            && (e.manifest.Some? ==>
                  var m := e.manifest.value;
                  && m.phase == e.phase && m.pageCount == e.pageCount == |m.operation|
                  && m.operation[e.number] == e.content
                  && forall k: nat :: k < e.number ==> SentBefore(log[..i], e, k, m.operation[k]))
  {
    hide ConfirmedUpTo, InventoryDelivered, PhaseEncodable;
    PrefixReplays(job, log, i);
    PrefixReplays(job, log, i + 1);
    assert log[..i + 1][..i] == log[..i];
    LogExplainsStage(job, log[..i]);
    var stage := Replay(job, log[..i]).value.stage;
    hide Replay, LogExplains;
    forall k: nat | k < stage.next ensures SentBefore(log[..i], log[i].envelope, k, stage.pages[k]) {
      EarlierPageSent(job, log[..i], stage.phase, stage.pages, stage.next, k, log[i].envelope);
    }
  }

  lemma EarlierPageSent(job: Job, log: seq<Event>, phase: Phase, pages: seq<Payload>, n: nat, k: nat, e: Envelope)
    requires ConfirmedUpTo(job, log, phase, pages, n) && k < n && e.phase == phase
    ensures SentBefore(log, e, k, pages[k])
  {
    var f := EnvelopeAt(job, phase, pages, k);
    assert Confirmed(job, log, f);
    var ack, reply :| Answered(job, log, f, ack, reply);
    assert Acknowledged(f, ack) in log;
  }

  function SentInStage(job: Job, stage: Stage): nat
    requires stage.Sending? ==> stage.next <= |stage.pages|
  {
    match stage
    case Idle => 0
    case Released(inventory) => PhaseBytes(job, InventoryPhase, inventory, |inventory|)
    case Sending(InventoryPhase, _, pages, next, _, _) => PhaseBytes(job, InventoryPhase, pages, next)
    case Sending(DataPhase, inventory, pages, next, _, _) =>
      PhaseBytes(job, InventoryPhase, inventory, |inventory|) + PhaseBytes(job, DataPhase, pages, next)
  }

  /**
    Bytes reported as sent are those of the acknowledged pages, once each, and
    never more than the bytes of all attempts.
  */
  lemma {:induction false} SentWithinAttempted(job: Job, log: seq<Event>)
    requires Replay(job, log).Some?
    ensures var t := Replay(job, log).value;
            && t.attempted == AttemptedBytes(log)
            && t.sent <= t.attempted
            && (t.stage.Sending? ==>
                  && t.stage.next <= |t.stage.pages|
                  && (t.stage.next == |t.stage.pages| ==> t.stage.tries == 0)
                  && (t.stage.phase.InventoryPhase? ==> t.stage.inventory == t.stage.pages)
                  && (t.stage.tries > 0 ==>
                        t.sent + job.gzipLength(EnvelopeAt(job, t.stage.phase, t.stage.pages, t.stage.next)) <= t.attempted))
            && t.sent == SentInStage(job, t.stage)
  {
    hide PhaseEncodable, JudgeReply, Encodable;
    if log != [] {
      SentWithinAttempted(job, log[..|log| - 1]);
    }
  }
}
