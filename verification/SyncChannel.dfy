/**
  Requests on the wire (telemetry/sync_http.py): one page with bounded retries,
  and the wait for an asynchronous apply. The channel keeps a log of what
  happened; every method keeps the log legal, however it returns.
*/
module SyncChannel {
  import opened Results
  import opened SyncErrors
  import opened SyncBudget
  import opened SyncGraph
  import opened SyncCatalogs
  import opened SyncData
  import opened SyncHttp

  class Channel {
    const job: Job
    const replies: nat -> Reply
    const polls: nat -> PollReply
    const transfer: TransferBudget
    var posts: nat
    var polled: nat
    var log: seq<Event>

    constructor (job: Job, replies: nat -> Reply, polls: nat -> PollReply, transfer: TransferBudget)
      requires transfer.attemptedBytes == 0
      ensures this.job == job && this.replies == replies && this.polls == polls && this.transfer == transfer
      ensures posts == 0 && polled == 0 && log == []
      ensures Legal() && Now() == Progress(Idle, 0, 0)
    {
      this.job, this.replies, this.polls, this.transfer := job, replies, polls, transfer;
      posts, polled, log := 0, 0, [];
    }

    /**
      The log so far is a run of the protocol; its replies and answers are those
      of the script, one per request; the transfer budget agrees with it.
    */
    ghost predicate Legal()
      reads this, transfer
    {
      && Replay(job, log).Some?
      && Replay(job, log).value.attempted == transfer.attemptedBytes <= transfer.maxBytes
      && RepliesOf(log) == seq(posts, (n: nat) => replies(n))
      && AnswersOf(log) == seq(polled, (n: nat) => polls(n))
    }

    ghost function Now(): Progress
      reads this, transfer
      requires Legal()
    {
      Replay(job, log).value
    }

    /** The next page to send, not tried yet. */
    ghost predicate Ready(e: Envelope)
      reads this, transfer
      requires Legal()
    {
      Now().stage.Sending? && Now().stage.tries == 0 && MayPost(job, Now().stage, e)
    }

    /** Records a step of the protocol that sends nothing. */
    method Note(event: Event)
      requires Legal() && !event.Posted? && !event.Polled? && Step(job, Now(), event).Some?
      modifies this`log
      ensures Legal() && log == old(log) + [event]
      ensures Now() == Step(job, old(Now()), event).value
    {
      hide JudgeReply, PhaseEncodable, MayPost, EnvelopeAt;
      ReplayOneMore(job, log, event);
      RepliesOneMore(log, event);
      log := log + [event];
    }

    /** One attempt: debit, send, judge the reply. */
    method Attempt(e: Envelope) returns (r: Result<Ack, SyncError>)
      requires Legal() && MayPost(job, Now().stage, e)
      modifies this`log, this`posts, transfer
      ensures Legal() && old(log) <= log
      ensures r.Err? && r.error == WorkspaceLimit ==> log == old(log) && Now() == old(Now())
      ensures !(r.Err? && r.error == WorkspaceLimit) ==>
                && log == old(log) + [Posted(e, job.gzipLength(e), replies(old(posts)))]
                && r == JudgeReply(e, replies(old(posts)))
                && Now().sent == old(Now().sent)
                && Now().stage == old(Now().stage).(tries := old(Now().stage.tries) + 1, last := Some(replies(old(posts))))
      ensures r.Err? ==> r.error in {WorkspaceLimit, Transport, ProtocolViolation} || r.error.HttpStatus?
    {
      hide JudgeReply;
      var full := transfer.Debit(job.gzipLength(e));
      if full.Some? {
        return Err(full.value);
      }
      var event := Posted(e, job.gzipLength(e), replies(posts));
      ReplayOneMore(job, log, event);
      RepliesOneMore(log, event);
      AcceptedAcknowledgement(e, replies(posts));
      r := JudgeReply(e, replies(posts));
      log := log + [event];
      posts := posts + 1;
    }

    /**
      `_post_page_with_retries`: success means the reply to the last request for
      this page was accepted. A transient failure is given up only after the
      third attempt, any other at once.
    */
    method PostWithRetries(e: Envelope) returns (r: Result<Ack, SyncError>)
      requires Legal() && Ready(e)
      modifies this`log, this`posts, transfer
      ensures Legal() && old(log) <= log
      ensures r.Ok? ==>
                && Acknowledged(e, r.value) in log
                && Now().stage == old(Now().stage).(next := old(Now().stage.next) + 1, last := None)
                && Now().sent == old(Now().sent) + job.gzipLength(e)
      ensures r.Err? ==> r.error in {WorkspaceLimit, Transport, ProtocolViolation} || r.error.HttpStatus?
      ensures r.Err? ==> Now().stage.Sending? && Now().stage == old(Now().stage).(tries := Now().stage.tries, last := Now().stage.last)
      ensures r.Err? && Transient(r.error) ==> Now().stage.tries == PAGE_RETRIES
      ensures r == Err(Transport) || (r.Err? && r.error.HttpStatus? && Passing(r.error.code)) ==> Now().stage.tries == 3
    {
      hide JudgeReply, PhaseEncodable;
      var attempt := 1;
      while true
        invariant 1 <= attempt <= PAGE_RETRIES && Legal() && old(log) <= log
        invariant MayPost(job, Now().stage, e)
        invariant Now().stage.Sending? && Now().stage == old(Now().stage).(tries := attempt - 1, last := Now().stage.last)
        invariant Now().sent == old(Now().sent)
        decreases PAGE_RETRIES - attempt
      {
        r := Attempt(e);
        if r.Ok? {
          Note(Acknowledged(e, r.value));
          return;
        }
        if !Transient(r.error) || attempt == PAGE_RETRIES {
          return;
        }
        attempt := attempt + 1;
      }
    }

    /** One status request. */
    method Poll() returns (answer: PollReply)
      requires Legal() && Now().stage.Sending? && Now().stage.phase.DataPhase?
      requires Now().stage.next == |Now().stage.pages| > 0
      modifies this`polled, this`log
      ensures Legal() && Now() == old(Now()) && log == old(log) + [Polled(answer)]
      ensures answer == polls(old(polled))
    {
      answer := polls(polled);
      ReplayOneMore(job, log, Polled(answer));
      RepliesOneMore(log, Polled(answer));
      log := log + [Polled(answer)];
      polled := polled + 1;
    }

    /** `_wait_for_async_apply`: eleven polls, one a minute; transient poll failures are skipped. */
    method WaitForAsyncApply(operation: seq<Payload>) returns (e: Option<SyncError>)
      requires Legal() && Now().stage.Sending? && Now().stage.phase.DataPhase?
      requires Now().stage.next == |Now().stage.pages| > 0
      modifies this`polled, this`log
      ensures Legal() && Now() == old(Now()) && old(log) <= log
      ensures e.None? ==> exists answer :: Polled(answer) in log && JudgePoll(answer, operation).Done?
      ensures e.Some? ==> e.value in {AsyncApply, ProtocolViolation} || e.value.HttpStatus?
    {
      hide Legal;
      for k := 0 to APPLY_POLLS
        invariant Legal() && Now() == old(Now()) && old(log) <= log
      {
        var answer := Poll();
        match JudgePoll(answer, operation) {
          case Pending =>
          case Done => return None;
          case Broken(error) => return Some(error);
        }
      }
      return Some(AsyncApply);
    }
  }
}
