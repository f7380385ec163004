// The job server's HTTP protocol as the two API servers use it: a
// workflow is submitted with `POST /prompt`, and `GET /history/<id>` is
// polled until the history contains the job. Replies are already decoded
// from JSON; a request that fails or a body that does not decode is one
// kind of reply.

module Jobs {
  import opened Options

  /** One entry of a node's `images` list; `filename` may be missing. */
  datatype Image = Image(filename: Option<string>)

  /** One value of `outputs`; `images` is `None` when the key is absent. */
  datatype NodeOutput = NodeOutput(images: Option<seq<Image>>)

  /** `history[prompt_id]`: `outputs` keeps the server's node order, as a
    * Python dict keeps insertion order; `None` when the key is absent. */
  datatype JobResult = JobResult(outputs: Option<seq<(string, NodeOutput)>>)

  /** What a request to `/history/<id>` produced. */
  datatype PollReply =
    | PollFailed
    | History(jobs: map<string, JobResult>)

  /** What the request to `/prompt` produced: a failure, or a decoded
    * object with or without a `prompt_id` field. */
  datatype SubmitReply =
    | SubmitFailed
    | Submitted(promptId: Option<string>)

  /** Why a step stopped: an exception escaping from the request or the
    * decoding, a missing dictionary key, a missing file, or an
    * `HTTPException`. */
  datatype Failure =
    | RequestFailed
    | MissingKey(key: string)
    | FileNotFound(name: string)
    | HttpStatus(code: nat)

  /** How a polling loop ended after the replies it was given: with the
    * job's result, with an exception, or still waiting. `sleeps` counts
    * the pauses between polls. */
  datatype PollOutcome =
    | Finished(result: JobResult, sleeps: nat)
    | Raised(failure: Failure, sleeps: nat)
    | Waiting(sleeps: nat)

  /** Seconds slept between two polls. */
  const PollIntervalSeconds: nat := 3

  /** The number of requests made before the loop ended. */
  function Polls(o: PollOutcome): nat {
    match o
    case Waiting(sleeps) => sleeps
    case _ => o.sleeps + 1
  }

  /** Seconds spent sleeping. */
  function SecondsSlept(o: PollOutcome): nat {
    o.sleeps * PollIntervalSeconds
  }

  /** The reply holds the job with this id. */
  predicate HasJob(reply: PollReply, promptId: string) {
    reply.History? && promptId in reply.jobs
  }

  /** The index of the first reply that holds the job, if any. */
  function FirstWithJob(replies: seq<PollReply>, promptId: string): (r: Option<nat>)
    ensures r.Some? ==> r.value < |replies| && HasJob(replies[r.value], promptId)
    ensures r.Some? ==> forall j :: 0 <= j < r.value ==> !HasJob(replies[j], promptId)
    ensures r.None? ==> forall j :: 0 <= j < |replies| ==> !HasJob(replies[j], promptId)
  {
    if |replies| == 0 then None
    else if HasJob(replies[0], promptId) then Some(0)
    else
      match FirstWithJob(replies[1..], promptId)
      case None => None
      case Some(i) => Some(i + 1)
  }

  /** `http://{ip}/history/{prompt_id}` */
  function HistoryUrl(ip: string, promptId: string): string {
    "http://" + ip + "/history/" + promptId
  }

  /** The body of the submission, `{"prompt": workflow}`. */
  datatype Envelope<W> = Envelope(prompt: W)

  // ---------------------------------------------------------------------
  // The two polling disciplines

  /** The reply stops a loop that lets exceptions escape: it holds the
    * job, or the request failed. */
  predicate StopsStrictLoop(reply: PollReply, promptId: string) {
    reply.PollFailed? || HasJob(reply, promptId)
  }

  /** The index of the first reply that stops such a loop, if any. */
  function FirstStop(replies: seq<PollReply>, promptId: string): (r: Option<nat>)
    ensures r.Some? ==> r.value < |replies| && StopsStrictLoop(replies[r.value], promptId)
    ensures r.Some? ==> forall j :: 0 <= j < r.value ==> !StopsStrictLoop(replies[j], promptId)
    ensures r.None? ==> forall j :: 0 <= j < |replies| ==> !StopsStrictLoop(replies[j], promptId)
  {
    if |replies| == 0 then None
    else if StopsStrictLoop(replies[0], promptId) then Some(0)
    else
      match FirstStop(replies[1..], promptId)
      case None => None
      case Some(i) => Some(i + 1)
  }

  /** A loop that retries after every failure: it ends with the first
    * reply holding the job, after one sleep per earlier reply. */
  function RetryingPoll(replies: seq<PollReply>, promptId: string): (o: PollOutcome)
    ensures !o.Raised?
    ensures o.Finished? ==> o.sleeps < |replies| && HasJob(replies[o.sleeps], promptId) && o.result == replies[o.sleeps].jobs[promptId]
    ensures o.Finished? ==> forall j :: 0 <= j < o.sleeps ==> !HasJob(replies[j], promptId)
    ensures o.Waiting? ==> o.sleeps == |replies| && forall j :: 0 <= j < |replies| ==> !HasJob(replies[j], promptId)
  {
    match FirstWithJob(replies, promptId)
    case Some(i) => Finished(replies[i].jobs[promptId], i)
    case None => Waiting(|replies|)
  }

  /** A loop in which a failed request escapes: it ends with the first
    * reply that either holds the job or failed. */
  function StrictPoll(replies: seq<PollReply>, promptId: string): (o: PollOutcome)
    ensures o.Raised? ==> o.failure == RequestFailed && o.sleeps < |replies| && replies[o.sleeps].PollFailed?
    ensures o.Finished? ==> o.sleeps < |replies| && HasJob(replies[o.sleeps], promptId) && o.result == replies[o.sleeps].jobs[promptId]
    ensures !o.Waiting? ==> forall j :: 0 <= j < o.sleeps ==> !StopsStrictLoop(replies[j], promptId)
    ensures o.Waiting? ==> o.sleeps == |replies| && forall j :: 0 <= j < |replies| ==> !StopsStrictLoop(replies[j], promptId)
  {
    match FirstStop(replies, promptId)
    case Some(i) =>
      if replies[i].PollFailed? then Raised(RequestFailed, i)
      else Finished(replies[i].jobs[promptId], i)
    case None => Waiting(|replies|)
  }

  /** With no failed request the two loops behave alike. */
  lemma {:induction false} PollsAgreeWithoutFailures(replies: seq<PollReply>, promptId: string)
    requires forall j :: 0 <= j < |replies| ==> replies[j].History?
    ensures StrictPoll(replies, promptId) == RetryingPoll(replies, promptId)
    decreases |replies|
  {
    if |replies| > 0 && !HasJob(replies[0], promptId) {
      PollsAgreeWithoutFailures(replies[1..], promptId);
    }
  }

  /** Whenever the strict loop finishes, the retrying one finishes with
    * the same result after the same number of sleeps. */
  lemma StrictFinishedImpliesRetryingFinished(replies: seq<PollReply>, promptId: string)
    requires StrictPoll(replies, promptId).Finished?
    ensures RetryingPoll(replies, promptId) == StrictPoll(replies, promptId)
  {
    var i := FirstStop(replies, promptId).value;
    var k := FirstWithJob(replies, promptId);
    assert HasJob(replies[i], promptId);
    assert k.Some? && !(k.value < i) && !(i < k.value);
  }

  /** A failure before the job appears ends the strict loop with the
    * exception, while the retrying loop carries on. */
  lemma FailureBeforeJob(replies: seq<PollReply>, promptId: string, k: nat)
    requires k < |replies| && replies[k].PollFailed?
    requires forall j :: 0 <= j < k ==> !HasJob(replies[j], promptId)
    requires forall j :: 0 <= j < k ==> replies[j].History?
    ensures StrictPoll(replies, promptId) == Raised(RequestFailed, k)
    ensures !RetryingPoll(replies, promptId).Finished? || RetryingPoll(replies, promptId).sleeps > k
  {
    var i := FirstStop(replies, promptId).value;
    assert !(i > k) && !(i < k);
    match FirstWithJob(replies, promptId)
    case None =>
    case Some(n) =>
      assert n != k && !(n < k);
  }
}
