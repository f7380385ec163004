// The image server (comfy_mv_api.py): `/generate` turns a prompt into one
// image, `/generate_mv_adapter` turns a reference image into three views.
// Both submit a workflow to the job server, poll until it is done, and
// read the file names the save node reported out of the job's `outputs`.

module ComfyMvApi {
  import opened Options
  import opened Strings
  import opened Jobs
  import opened Workflow
  import opened ViewRename
  import PromptWorkflow
  import MvAdapterWorkflow

  /** `comfy_ip` */
  const ComfyIp: string := "0.0.0.0:8190"

  // ---------------------------------------------------------------------
  // Talking to the job server

  /**
   * `queue_prompt`: the `prompt_id` of the decoded reply. Every exception
   * inside, a failed request and a missing `prompt_id` alike, is turned
   * into an HTTP 500.
   */
  function QueuePrompt(reply: SubmitReply): (r: Result<string, Failure>)
    ensures r.Ok? <==> reply.Submitted? && reply.promptId.Some?
    ensures r.Ok? ==> r.value == reply.promptId.value
    ensures r.Err? ==> r.error == HttpStatus(500)
  {
    match reply
    case Submitted(Some(id)) => Ok(id)
    case _ => Err(HttpStatus(500))
  }

  /**
   * `check_progress`, fed with the replies the server gives one after the
   * other: every request goes to the job's history URL, an exception is
   * swallowed, and each reply without the job is followed by a sleep.
   */
  method CheckProgress(promptId: string, ip: string, replies: seq<PollReply>)
    returns (outcome: PollOutcome, requests: seq<string>, slept: nat)
    ensures outcome == RetryingPoll(replies, promptId)
    ensures |requests| == Polls(outcome)
    ensures slept == SecondsSlept(outcome)
    ensures forall k :: 0 <= k < |requests| ==> requests[k] == HistoryUrl(ip, promptId)
  {
    requests, slept := [], 0;
    var i := 0;
    while i < |replies|
      invariant 0 <= i <= |replies|
      invariant forall j :: 0 <= j < i ==> !HasJob(replies[j], promptId)
      invariant |requests| == i
      invariant slept == i * PollIntervalSeconds
      invariant forall k :: 0 <= k < |requests| ==> requests[k] == HistoryUrl(ip, promptId)
    {
      requests := requests + [HistoryUrl(ip, promptId)];
      var reply := replies[i];
      if reply.History? && promptId in reply.jobs {
        assert FirstWithJob(replies, promptId) == Some(i);
        return Finished(reply.jobs[promptId], i), requests, slept;
      }
      // time.sleep(3)
      slept := slept + PollIntervalSeconds;
      i := i + 1;
    }
    outcome := Waiting(|replies|);
  }

  // ---------------------------------------------------------------------
  // File names in the job's outputs

  /** `host_ip` as an f-string renders it: an unset variable is `None`. */
  function HostText(host: Option<string>): string {
    match host
    case None => "None"
    case Some(h) => h
  }

  /** `f"{host_ip}/images/{filename}"` */
  function ImageUrl(host: Option<string>, filename: string): (url: string)
    ensures |url| > 0
    ensures EndsWith(url, filename)
  {
    HostText(host) + "/images/" + filename
  }

  /** The file name can be read back from the URL. */
  lemma ImageUrlNamesFile(host: Option<string>, filename: string)
    ensures StripPrefix(ImageUrl(host, filename), HostText(host) + "/images/") == Some(filename)
  {
    StripPrependedPrefix(HostText(host) + "/images/", filename);
  }

  /** `"completed" if file_image_url else "fail"`: `None` and the empty
    * string are false. */
  function Status(url: Option<string>): (s: string)
    ensures s == "completed" || s == "fail"
    ensures url.None? ==> s == "fail"
    ensures url.Some? && |url.value| > 0 ==> s == "completed"
  {
    if url.Some? && url.value != "" then "completed" else "fail"
  }

  /** The images a node lists; none when it has no `images` key. */
  function ImagesOf(n: NodeOutput): seq<Image> {
    match n.images
    case None => []
    case Some(images) => images
  }

  /** The images of all nodes, in the order the loops visit them. */
  function AllImages(outputs: seq<(string, NodeOutput)>): seq<Image> {
    if |outputs| == 0 then []
    else AllImages(outputs[..|outputs| - 1]) + ImagesOf(outputs[|outputs| - 1].1)
  }

  predicate AllNamed(images: seq<Image>) {
    forall k :: 0 <= k < |images| ==> images[k].filename.Some?
  }

  /** What `generate_image` keeps: the URL and the file name. */
  datatype Extracted = Extracted(url: Option<string>, filename: Option<string>)

  /** The pair after a run over images that all have a file name: the last
    * one wins. */
  function Summary(images: seq<Image>, host: Option<string>): (e: Extracted)
    requires AllNamed(images)
    ensures e.url.Some? <==> e.filename.Some?
    ensures e.filename.Some? ==> e.url == Some(ImageUrl(host, e.filename.value))
  {
    if |images| == 0 then Extracted(None, None)
    else
      var f := images[|images| - 1].filename.value;
      Extracted(Some(ImageUrl(host, f)), Some(f))
  }

  /**
   * The loops of `generate_image`: a missing `outputs`, or any image
   * without `filename`, raises a `KeyError`; otherwise the last image of
   * all is reported.
   */
  function LastImage(result: JobResult, host: Option<string>): (r: Result<Extracted, Failure>)
    ensures r.Err? <==> result.outputs.None? || !AllNamed(AllImages(result.outputs.value))
    ensures r.Ok? ==> (r.value.filename.Some? <==> |AllImages(result.outputs.value)| > 0)
  {
    match result.outputs
    case None => Err(MissingKey("outputs"))
    case Some(outputs) =>
      var images := AllImages(outputs);
      if AllNamed(images) then Ok(Summary(images, host)) else Err(MissingKey("filename"))
  }

  /** The images of a prefix of the outputs come first among all images. */
  lemma {:induction false} AllImagesPrefix(outputs: seq<(string, NodeOutput)>, n: nat)
    requires n <= |outputs|
    ensures AllImages(outputs[..n]) <= AllImages(outputs)
    decreases |outputs| - n
  {
    if n < |outputs| {
      AllImagesPrefix(outputs, n + 1);
      assert outputs[..n + 1][..n] == outputs[..n];
    } else {
      assert outputs[..n] == outputs;
    }
  }

  /** An image without a file name anywhere makes `AllNamed` fail. */
  lemma UnnamedImage(outputs: seq<(string, NodeOutput)>, i: nat, j: nat)
    requires i < |outputs| && j < |ImagesOf(outputs[i].1)|
    requires ImagesOf(outputs[i].1)[j].filename.None?
    ensures !AllNamed(AllImages(outputs))
  {
    AllImagesPrefix(outputs, i + 1);
    assert outputs[..i + 1][..i] == outputs[..i];
    var before := AllImages(outputs[..i]);
    assert AllImages(outputs[..i + 1]) == before + ImagesOf(outputs[i].1);
    assert AllImages(outputs)[|before| + j] == ImagesOf(outputs[i].1)[j];
  }

  /** One more named image: it becomes the reported one. */
  lemma NamedStep(seen: seq<Image>, image: Image, host: Option<string>)
    requires AllNamed(seen) && image.filename.Some?
    ensures AllNamed(seen + [image])
    ensures Summary(seen + [image], host) == Extracted(Some(ImageUrl(host, image.filename.value)), image.filename)
  {
  }

  /** The two loops of `generate_image`. */
  method ExtractLastImage(result: JobResult, host: Option<string>) returns (r: Result<Extracted, Failure>)
    ensures r == LastImage(result, host)
  {
    if result.outputs.None? {
      return Err(MissingKey("outputs"));
    }
    var outputs := result.outputs.value;
    var url: Option<string> := None;
    var filename: Option<string> := None;
    ghost var seen: seq<Image> := [];
    var i := 0;
    while i < |outputs|
      invariant 0 <= i <= |outputs|
      invariant seen == AllImages(outputs[..i])
      invariant AllNamed(seen)
      invariant Extracted(url, filename) == Summary(seen, host)
    {
      assert outputs[..i + 1][..i] == outputs[..i];
      if outputs[i].1.images.Some? {
        var images := outputs[i].1.images.value;
        ghost var before := seen;
        var j := 0;
        while j < |images|
          invariant 0 <= j <= |images|
          invariant seen == before + images[..j]
          invariant AllNamed(seen)
          invariant Extracted(url, filename) == Summary(seen, host)
        {
          if images[j].filename.None? {
            UnnamedImage(outputs, i, j);
            return Err(MissingKey("filename"));
          }
          NamedStep(seen, images[j], host);
          filename := images[j].filename;
          url := Some(ImageUrl(host, filename.value));
          assert images[..j + 1] == images[..j] + [images[j]];
          seen := seen + [images[j]];
          j := j + 1;
        }
        assert images[..j] == images;
      }
      i := i + 1;
    }
    assert outputs[..i] == outputs;
    r := Ok(Extracted(url, filename));
  }

  /** The last node whose `images` list is not empty. */
  function LastNodeWithImages(outputs: seq<(string, NodeOutput)>): (r: Option<nat>)
    ensures r.Some? ==> r.value < |outputs| && |ImagesOf(outputs[r.value].1)| > 0
    ensures r.Some? ==> forall m :: r.value < m < |outputs| ==> |ImagesOf(outputs[m].1)| == 0
    ensures r.None? ==> forall m :: 0 <= m < |outputs| ==> |ImagesOf(outputs[m].1)| == 0
  {
    if |outputs| == 0 then None
    else if |ImagesOf(outputs[|outputs| - 1].1)| > 0 then Some(|outputs| - 1)
    else LastNodeWithImages(outputs[..|outputs| - 1])
  }

  /** The reported image is the last image of the last node that lists
    * any, and there is one exactly when some node lists an image. */
  lemma {:induction false} LastImageOfLastNode(outputs: seq<(string, NodeOutput)>)
    ensures |AllImages(outputs)| > 0 <==> LastNodeWithImages(outputs).Some?
    ensures LastNodeWithImages(outputs).Some? ==>
      var images := ImagesOf(outputs[LastNodeWithImages(outputs).value].1);
      AllImages(outputs)[|AllImages(outputs)| - 1] == images[|images| - 1]
    decreases |outputs|
  {
    if |outputs| > 0 {
      var init := outputs[..|outputs| - 1];
      LastImageOfLastNode(init);
      if |ImagesOf(outputs[|outputs| - 1].1)| == 0 {
        assert AllImages(outputs) == AllImages(init);
        if LastNodeWithImages(init).Some? {
          assert init[LastNodeWithImages(init).value] == outputs[LastNodeWithImages(init).value];
        }
      }
    }
  }

  /** The filename `generate_image` reports is that of the last image of
    * the last node listing images; with no image it is `None`. */
  lemma LastImageReported(outputs: seq<(string, NodeOutput)>, host: Option<string>)
    requires AllNamed(AllImages(outputs))
    ensures match LastNodeWithImages(outputs)
      case None => LastImage(JobResult(Some(outputs)), host) == Ok(Extracted(None, None))
      case Some(n) =>
        var images := ImagesOf(outputs[n].1);
        LastImage(JobResult(Some(outputs)), host).value.filename == images[|images| - 1].filename
  {
    LastImageOfLastNode(outputs);
  }

  // ---------------------------------------------------------------------
  // The first node with images, as `generate_mv_adapter` reads it

  /** The first node that has an `images` key. */
  function FirstImagesNode(outputs: seq<(string, NodeOutput)>): (r: Option<nat>)
    ensures r.Some? ==> r.value < |outputs| && outputs[r.value].1.images.Some?
    ensures r.Some? ==> forall j :: 0 <= j < r.value ==> outputs[j].1.images.None?
    ensures r.None? ==> forall j :: 0 <= j < |outputs| ==> outputs[j].1.images.None?
  {
    if |outputs| == 0 then None
    else if outputs[0].1.images.Some? then Some(0)
    else
      match FirstImagesNode(outputs[1..])
      case None => None
      case Some(i) => Some(i + 1)
  }

  /** The file name of the last image that has one. */
  function LastNamed(images: seq<Image>): Option<string> {
    if |images| == 0 then None
    else if images[|images| - 1].filename.Some? then images[|images| - 1].filename
    else LastNamed(images[..|images| - 1])
  }

  /** The image at `k` has a file name and none after it has one. */
  predicate LastNamedAt(images: seq<Image>, k: nat)
    requires k < |images|
  {
    images[k].filename.Some? && forall m :: k < m < |images| ==> images[m].filename.None?
  }

  /** `LastNamed` finds nothing exactly when no image has a file name, and
    * what it finds belongs to a named image after which none is named. */
  lemma {:induction false} LastNamedMembers(images: seq<Image>)
    ensures LastNamed(images).None? <==> forall k :: 0 <= k < |images| ==> images[k].filename.None?
    ensures LastNamed(images).Some? ==> exists k :: 0 <= k < |images| && LastNamedAt(images, k) && images[k].filename == LastNamed(images)
    decreases |images|
  {
    if |images| > 0 && images[|images| - 1].filename.Some? {
      assert LastNamedAt(images, |images| - 1);
    } else if |images| > 0 {
      var init := images[..|images| - 1];
      LastNamedMembers(init);
      if LastNamed(init).Some? {
        var k :| 0 <= k < |init| && LastNamedAt(init, k) && init[k].filename == LastNamed(init);
        assert images[k] == init[k];
        assert LastNamedAt(images, k);
      }
    }
  }

  /** The URL of a file name, when there is one. */
  function UrlOf(host: Option<string>, filename: Option<string>): Option<string> {
    match filename
    case None => None
    case Some(f) => Some(ImageUrl(host, f))
  }

  /** The loop of `generate_mv_adapter`: the last named image of the first
    * node with `images`, whatever later nodes hold. */
  function MvImage(result: JobResult, host: Option<string>): (r: Result<Option<string>, Failure>)
    ensures r.Err? <==> result.outputs.None?
    ensures r.Err? ==> r.error == MissingKey("outputs")
    ensures r.Ok? && (forall m :: 0 <= m < |result.outputs.value| ==> result.outputs.value[m].1.images.None?) ==> r == Ok(None)
  {
    match result.outputs
    case None => Err(MissingKey("outputs"))
    case Some(outputs) =>
      match FirstImagesNode(outputs)
      case None => Ok(None)
      case Some(n) => Ok(UrlOf(host, LastNamed(outputs[n].1.images.value)))
  }

  method ExtractMvImage(result: JobResult, host: Option<string>) returns (r: Result<Option<string>, Failure>)
    ensures r == MvImage(result, host)
  {
    if result.outputs.None? {
      return Err(MissingKey("outputs"));
    }
    var outputs := result.outputs.value;
    var url: Option<string> := None;
    var i := 0;
    while i < |outputs|
      invariant 0 <= i <= |outputs|
      invariant forall j :: 0 <= j < i ==> outputs[j].1.images.None?
      invariant url == None
    {
      if outputs[i].1.images.Some? {
        var images := outputs[i].1.images.value;
        var j := 0;
        while j < |images|
          invariant 0 <= j <= |images|
          invariant url == UrlOf(host, LastNamed(images[..j]))
        {
          assert images[..j + 1][..j] == images[..j];
          if images[j].filename.Some? {
            url := Some(ImageUrl(host, images[j].filename.value));
          }
          j := j + 1;
        }
        assert images[..j] == images;
        assert FirstImagesNode(outputs) == Some(i);
        return Ok(url);
      }
      i := i + 1;
    }
    r := Ok(url);
  }

  /** Nodes after the first one with images are never read. */
  lemma LaterNodesIgnored(outputs: seq<(string, NodeOutput)>, later: seq<(string, NodeOutput)>, host: Option<string>)
    requires FirstImagesNode(outputs).Some?
    ensures MvImage(JobResult(Some(outputs + later)), host) == MvImage(JobResult(Some(outputs)), host)
  {
    var n := FirstImagesNode(outputs).value;
    var m := FirstImagesNode(outputs + later);
    assert (outputs + later)[n] == outputs[n];
    assert m.Some? && !(m.value < n) && !(n < m.value);
  }

  /** When no image of the first node with images has a file name, the
    * request fails, even if later nodes hold named images. */
  lemma FirstNodeDecides(outputs: seq<(string, NodeOutput)>, host: Option<string>)
    requires FirstImagesNode(outputs).Some?
    requires var images := outputs[FirstImagesNode(outputs).value].1.images.value;
      forall k :: 0 <= k < |images| ==> images[k].filename.None?
    ensures MvImage(JobResult(Some(outputs)), host) == Ok(None)
    ensures Status(MvImage(JobResult(Some(outputs)), host).value) == "fail"
  {
    LastNamedMembers(outputs[FirstImagesNode(outputs).value].1.images.value);
  }

  /** The reported image belongs to the first node with images: a named
    * image of it, after which it has no named image. */
  lemma MvImageOfFirstNode(outputs: seq<(string, NodeOutput)>, n: nat, host: Option<string>, url: string)
    requires FirstImagesNode(outputs) == Some(n)
    requires MvImage(JobResult(Some(outputs)), host) == Ok(Some(url))
    ensures var images := outputs[n].1.images.value;
      exists k :: 0 <= k < |images| && LastNamedAt(images, k) && url == ImageUrl(host, images[k].filename.value)
  {
    LastNamedMembers(outputs[n].1.images.value);
  }

  /** Nodes without images add none. */
  lemma {:induction false} AllImagesEmpty(outputs: seq<(string, NodeOutput)>)
    requires forall m :: 0 <= m < |outputs| ==> outputs[m].1.images.None?
    ensures AllImages(outputs) == []
    decreases |outputs|
  {
    if |outputs| > 0 {
      AllImagesEmpty(outputs[..|outputs| - 1]);
    }
  }

  /** When one node alone has images, they are all the images. */
  lemma {:induction false} AllImagesOfOnlyNode(outputs: seq<(string, NodeOutput)>, n: nat)
    requires n < |outputs|
    requires forall m :: 0 <= m < |outputs| && m != n ==> outputs[m].1.images.None?
    ensures AllImages(outputs) == ImagesOf(outputs[n].1)
    decreases |outputs|
  {
    var init := outputs[..|outputs| - 1];
    if n == |outputs| - 1 {
      AllImagesEmpty(init);
    } else {
      AllImagesOfOnlyNode(init, n);
    }
  }

  /** When only one node lists images and each has a file name, the two
    * endpoints pick the same image. */
  lemma RulesAgreeOnOneNode(outputs: seq<(string, NodeOutput)>, n: nat, host: Option<string>)
    requires n < |outputs| && |ImagesOf(outputs[n].1)| > 0
    requires forall m :: 0 <= m < |outputs| && m != n ==> outputs[m].1.images.None?
    requires AllNamed(AllImages(outputs))
    ensures MvImage(JobResult(Some(outputs)), host).value == LastImage(JobResult(Some(outputs)), host).value.url
  {
    AllImagesOfOnlyNode(outputs, n);
    var f := FirstImagesNode(outputs).value;
    assert !(f < n) && !(n < f);
    var images := ImagesOf(outputs[n].1);
    assert LastNamed(images) == images[|images| - 1].filename;
  }

  // ---------------------------------------------------------------------
  // The endpoints

  /** The body `generate_image` returns. */
  datatype ImageReply = ImageReply(status: string, image: Option<string>, filename: Option<string>)

  /** The body `generate_mv_adapter` returns. */
  datatype MvReply = MvReply(status: string, image: Option<string>)

  /** How a request ends: with a body, with an HTTP error, or never, when
    * the job has not appeared by the last reply given. */
  datatype Response<T> = Replied(body: T) | Failed(code: nat) | StillWaiting

  /** `/generate`, given the server's replies. */
  function ImageResponse(submit: SubmitReply, replies: seq<PollReply>, host: Option<string>): (r: Response<ImageReply>)
    ensures r.Failed? ==> r.code == 500
  {
    match QueuePrompt(submit)
    case Err(_) => Failed(500)
    case Ok(id) =>
      match RetryingPoll(replies, id)
      case Finished(result, _) =>
        (match LastImage(result, host)
         case Err(_) => Failed(500)
         case Ok(e) => Replied(ImageReply(Status(e.url), e.url, e.filename)))
      case _ => StillWaiting
  }

  /** A body says "completed" exactly when it names a file, and then its
    * URL is that file's. */
  lemma ImageReplyConsistent(submit: SubmitReply, replies: seq<PollReply>, host: Option<string>)
    requires ImageResponse(submit, replies, host).Replied?
    ensures var b := ImageResponse(submit, replies, host).body;
      && (b.status == "completed" <==> b.filename.Some?)
      && (b.status == "completed" || b.status == "fail")
      && (b.filename.Some? ==> b.image == Some(ImageUrl(host, b.filename.value)))
  {
  }

  /** The endpoint answers only once the job is in a reply and the id was
    * submitted. */
  lemma ImageNeedsJob(submit: SubmitReply, replies: seq<PollReply>, host: Option<string>)
    requires ImageResponse(submit, replies, host).Replied?
    ensures submit.Submitted? && submit.promptId.Some?
    ensures exists k :: 0 <= k < |replies| && HasJob(replies[k], submit.promptId.value)
  {
    var k := FirstWithJob(replies, submit.promptId.value).value;
  }

  method GenerateImage(userPrompt: string, userNegative: string, host: Option<string>,
                       submit: SubmitReply, replies: seq<PollReply>)
    returns (sent: Envelope<Graph<PromptWorkflow.NodeId>>, response: Response<ImageReply>)
    ensures sent == Envelope(PromptWorkflow.Build(userPrompt, userNegative))
    ensures response == ImageResponse(submit, replies, host)
  {
    sent := Envelope(PromptWorkflow.Build(userPrompt, userNegative));
    var queued := QueuePrompt(submit);
    if queued.Err? {
      return sent, Failed(500);
    }
    var outcome, _, _ := CheckProgress(queued.value, ComfyIp, replies);
    if !outcome.Finished? {
      return sent, StillWaiting;
    }
    var extracted := ExtractLastImage(outcome.result, host);
    if extracted.Err? {
      return sent, Failed(500);
    }
    var e := extracted.value;
    response := Replied(ImageReply(Status(e.url), e.url, e.filename));
  }

  /** What `/generate_mv_adapter` answers and leaves in the folder. */
  datatype MvOutcome = MvOutcome(response: Response<MvReply>, entries: map<string, nat>)

  /** `/generate_mv_adapter`, given the server's replies and the folder
    * with its listing: the views are renamed whether or not an image was
    * found, and a failed rename turns the answer into a 500. */
  function MvResponse(submit: SubmitReply, replies: seq<PollReply>, host: Option<string>,
                      entries: map<string, nat>, listing: seq<string>): (r: MvOutcome)
    ensures r.response.Failed? ==> r.response.code == 500
  {
    match QueuePrompt(submit)
    case Err(_) => MvOutcome(Failed(500), entries)
    case Ok(id) =>
      match RetryingPoll(replies, id)
      case Finished(result, _) =>
        (match MvImage(result, host)
         case Err(_) => MvOutcome(Failed(500), entries)
         case Ok(url) =>
           var run := ApplyRenames(entries, RenamePlan(listing));
           if run.failure.Some? then MvOutcome(Failed(500), run.entries)
           else MvOutcome(Replied(MvReply(Status(url), url)), run.entries))
      case _ => MvOutcome(StillWaiting, entries)
  }

  /** With a faithful listing of the folder, the renames never cause a
    * 500: once the job's outputs are read, the endpoint answers. */
  lemma MvAnswersOnceRead(submit: SubmitReply, replies: seq<PollReply>, host: Option<string>,
                          entries: map<string, nat>, listing: seq<string>, id: string)
    requires forall name :: name in listing <==> name in entries
    requires forall i, j :: 0 <= i < j < |listing| ==> listing[i] != listing[j]
    requires QueuePrompt(submit) == Ok(id)
    requires RetryingPoll(replies, id).Finished?
    requires MvImage(RetryingPoll(replies, id).result, host).Ok?
    ensures MvResponse(submit, replies, host, entries, listing).response ==
      var url := MvImage(RetryingPoll(replies, id).result, host).value;
      Replied(MvReply(Status(url), url))
  {
    PlanSucceeds(entries, listing);
  }

  method GenerateMvAdapter(referenceFilename: string, userPrompt: string, host: Option<string>,
                           submit: SubmitReply, replies: seq<PollReply>,
                           output: Directory, listing: seq<string>)
    returns (sent: Envelope<Graph<MvAdapterWorkflow.NodeId>>, response: Response<MvReply>)
    modifies output
    ensures sent == Envelope(MvAdapterWorkflow.Build(referenceFilename, userPrompt))
    ensures MvOutcome(response, output.entries) == MvResponse(submit, replies, host, old(output.entries), listing)
  {
    sent := Envelope(MvAdapterWorkflow.Build(referenceFilename, userPrompt));
    var queued := QueuePrompt(submit);
    if queued.Err? {
      return sent, Failed(500);
    }
    var outcome, _, _ := CheckProgress(queued.value, ComfyIp, replies);
    if !outcome.Finished? {
      return sent, StillWaiting;
    }
    var url := ExtractMvImage(outcome.result, host);
    if url.Err? {
      return sent, Failed(500);
    }
    var failure := output.ApplyPlan(RenamePlan(listing));
    if failure.Some? {
      return sent, Failed(500);
    }
    response := Replied(MvReply(Status(url.value), url.value));
  }
}
