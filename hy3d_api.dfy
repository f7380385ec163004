// The 3D server (hy3d_api.py): `/generate_hy3d` saves the three uploaded
// views as temporary files, runs the Hy3D workflow on them, and answers
// with the newest textured GLB of `output_dir/3D`.

module Hy3dApi {
  import opened Options
  import opened Strings
  import opened Paths
  import opened Files
  import opened Jobs
  import opened Workflow
  import Hy3dWorkflow
  import ComfyMvApi

  /** `comfy_ip` */
  const ComfyIp: string := "127.0.0.1:8188"

  /** `os.getenv("OUTPUT_3D_DIR", "output")` */
  function OutputDir(env: Option<string>): string {
    match env
    case None => "output"
    case Some(dir) => dir
  }

  /** The folder the GLB files are written to, `output_dir/3D`. */
  function GlbDir(outputDir: string): string {
    Join(outputDir, "3D")
  }

  /** `Hy3D_textured*.glb` */
  const GlbPattern: Pattern := Pattern("Hy3D_textured", "", ".glb")

  // ---------------------------------------------------------------------
  // Talking to the job server, letting exceptions escape

  /** `queue_prompt` without a `try`: the failure of the request or of the
    * `prompt_id` lookup escapes as it is. */
  function QueuePrompt(reply: SubmitReply): (r: Result<string, Failure>)
    ensures r.Ok? <==> reply.Submitted? && reply.promptId.Some?
    ensures r.Ok? ==> r.value == reply.promptId.value
    ensures r == Err(RequestFailed) <==> reply.SubmitFailed?
    ensures r == Err(MissingKey("prompt_id")) <==> reply == Submitted(None)
  {
    match reply
    case SubmitFailed => Err(RequestFailed)
    case Submitted(None) => Err(MissingKey("prompt_id"))
    case Submitted(Some(id)) => Ok(id)
  }

  /** Both servers obtain the same id from the same reply; only what they
    * raise differs. */
  lemma QueueVariantsAgree(reply: SubmitReply)
    ensures QueuePrompt(reply).Ok? <==> ComfyMvApi.QueuePrompt(reply).Ok?
    ensures QueuePrompt(reply).Ok? ==> QueuePrompt(reply).value == ComfyMvApi.QueuePrompt(reply).value
    ensures QueuePrompt(reply).Err? ==> ComfyMvApi.QueuePrompt(reply).error == HttpStatus(500)
  {
  }

  /** `check_progress` without a `try`: the first failed request ends the
    * loop with its exception. */
  method CheckProgress(promptId: string, ip: string, replies: seq<PollReply>)
    returns (outcome: PollOutcome, requests: seq<string>, slept: nat)
    ensures outcome == StrictPoll(replies, promptId)
    ensures |requests| == Polls(outcome)
    ensures slept == SecondsSlept(outcome)
    ensures forall k :: 0 <= k < |requests| ==> requests[k] == HistoryUrl(ip, promptId)
  {
    requests, slept := [], 0;
    var i := 0;
    while i < |replies|
      invariant 0 <= i <= |replies|
      invariant forall j :: 0 <= j < i ==> !StopsStrictLoop(replies[j], promptId)
      invariant |requests| == i
      invariant slept == i * PollIntervalSeconds
      invariant forall k :: 0 <= k < |requests| ==> requests[k] == HistoryUrl(ip, promptId)
    {
      requests := requests + [HistoryUrl(ip, promptId)];
      var reply := replies[i];
      if reply.PollFailed? {
        assert FirstStop(replies, promptId) == Some(i);
        return Raised(RequestFailed, i), requests, slept;
      }
      if promptId in reply.jobs {
        assert FirstStop(replies, promptId) == Some(i);
        return Finished(reply.jobs[promptId], i), requests, slept;
      }
      // time.sleep(3)
      slept := slept + PollIntervalSeconds;
      i := i + 1;
    }
    outcome := Waiting(|replies|);
  }

  // ---------------------------------------------------------------------
  // `glb_files.sort(key=os.path.getmtime, reverse=True)`

  predicate SortedByTimeDesc(s: seq<FileEntry>) {
    forall i, j :: 0 <= i < j < |s| ==> s[j].mtime <= s[i].mtime
  }

  /** An upper bound of `x` and of every element of `s` bounds every
    * element of a sequence holding those same elements. */
  lemma BoundedByElements(y: int, x: FileEntry, s: seq<FileEntry>, t: seq<FileEntry>)
    requires x.mtime <= y
    requires forall j :: 0 <= j < |s| ==> s[j].mtime <= y
    requires multiset(t) == multiset(s) + multiset{x}
    ensures forall k :: 0 <= k < |t| ==> t[k].mtime <= y
  {
    forall k | 0 <= k < |t| ensures t[k].mtime <= y {
      assert t[k] in multiset(t);
      if t[k] != x {
        assert t[k] in multiset(s);
      }
    }
  }

  /**
   * Put `x`, which came before every element of `s` in the list, in front
   * of the first element that is not newer: the sort is stable, and
   * `reverse=True` keeps equal keys in their original order.
   */
  function InsertByTime(x: FileEntry, s: seq<FileEntry>): (r: seq<FileEntry>)
    requires SortedByTimeDesc(s)
    ensures SortedByTimeDesc(r)
    ensures multiset(r) == multiset(s) + multiset{x}
  {
    if |s| == 0 then [x]
    else if s[0].mtime <= x.mtime then [x] + s
    else
      var t := InsertByTime(x, s[1..]);
      BoundedByElements(s[0].mtime, x, s[1..], t);
      assert s == [s[0]] + s[1..];
      [s[0]] + t
  }

  /** The list after the sort: newest first, the same files. */
  function SortByTimeDesc(s: seq<FileEntry>): (r: seq<FileEntry>)
    ensures SortedByTimeDesc(r)
    ensures multiset(r) == multiset(s)
  {
    if |s| == 0 then []
    else
      assert s == [s[0]] + s[1..];
      InsertByTime(s[0], SortByTimeDesc(s[1..]))
  }

  /** The head after inserting `x` in front of a sorted sequence. */
  lemma InsertHead(x: FileEntry, t: seq<FileEntry>)
    requires SortedByTimeDesc(t) && |t| > 0
    ensures InsertByTime(x, t)[0] == if t[0].mtime <= x.mtime then x else t[0]
  {
  }

  /** `glb_files[0]` after the sort is the file `max(glb_files, key=...)`
    * picks: the first of the newest. */
  lemma {:induction false} SortHeadIsNewest(s: seq<FileEntry>)
    requires |s| > 0
    ensures |SortByTimeDesc(s)| > 0
    ensures SortByTimeDesc(s)[0] == s[NewestIndex(s, ModifiedTime)]
    decreases |s|
  {
    assert |multiset(SortByTimeDesc(s))| == |s|;
    if |s| == 1 {
      assert SortByTimeDesc(s) == [s[0]];
    } else {
      var rest := s[1..];
      SortHeadIsNewest(rest);
      var n := NewestIndex(rest, ModifiedTime);
      InsertHead(s[0], SortByTimeDesc(rest));
      assert s[n + 1] == rest[n];
    }
  }

  // ---------------------------------------------------------------------
  // The file the endpoint answers with

  /** `FileResponse(path, filename=...)` */
  datatype Download = Download(path: string, filename: string)

  /** The newest GLB of the folder, given its entries in glob order. */
  function LatestGlb(listing: seq<FileEntry>, outputDir: string): Option<Download> {
    var matches := Glob(listing, GlbPattern);
    if |matches| == 0 then None
    else
      var path := Join(GlbDir(outputDir), SortByTimeDesc(matches)[0].name);
      Some(Download(path, Basename(path)))
  }

  /** The sort picks the file `max` would: the server's choice is the
    * newest match of the glob, and the download is named after it. */
  lemma LatestGlbIsNewest(listing: seq<FileEntry>, outputDir: string)
    requires forall f :: f in listing ==> '/' !in f.name
    ensures LatestGlb(listing, outputDir) ==
      match Newest(Glob(listing, GlbPattern), ModifiedTime)
      case None => None
      case Some(f) => Some(Download(Join(GlbDir(outputDir), f.name), f.name))
  {
    var matches := Glob(listing, GlbPattern);
    if |matches| > 0 {
      SortHeadIsNewest(matches);
      var f := matches[NewestIndex(matches, ModifiedTime)];
      assert f in matches;
      BasenameOfJoin(GlbDir(outputDir), f.name);
    }
  }

  // ---------------------------------------------------------------------
  // Temporary upload files

  /** The folder `tmp` the uploads are saved to. */
  class TempDir {
    /** The paths of the files in it. */
    var files: set<string>

    constructor (files: set<string>)
      ensures this.files == files
    {
      this.files := files;
    }

    /** `save_upload_file`: `upload` is the path `mkstemp` created and the
      * upload was written to, or `None` when saving raised. */
    method Save(upload: Option<string>) returns (path: Option<string>)
      modifies this
      ensures path == upload
      ensures files == old(files) + SavedPath(upload)
    {
      if upload.Some? {
        files := files + {upload.value};
      }
      path := upload;
    }

    /** `if os.path.exists(f): os.remove(f)` */
    method Remove(path: string)
      modifies this
      ensures files == old(files) - {path}
    {
      if path in files {
        files := files - {path};
      }
    }

    /**
     * The `finally` block as written: building the list of the three
     * variables fails with a `NameError` when one was never assigned, and
     * then nothing is removed.
     */
    method Cleanup(saved: seq<Option<string>>) returns (nameError: bool)
      modifies this
      ensures nameError <==> !AllAssigned(saved)
      ensures files == old(files) - RemovedAsWritten(saved)
    {
      if !AllAssigned(saved) {
        return true;
      }
      var i := 0;
      while i < |saved|
        invariant 0 <= i <= |saved|
        invariant files == old(files) - PathsOf(saved[..i])
      {
        assert saved[..i + 1] == saved[..i] + [saved[i]];
        PathsOfAppend(saved[..i], saved[i]);
        Remove(saved[i].value);
        i := i + 1;
      }
      assert saved[..i] == saved;
      nameError := false;
    }

    /** The `finally` block the code evidently intends: every temp file that
      * was saved is removed. */
    method CleanupAssigned(saved: seq<Option<string>>)
      modifies this
      ensures files == old(files) - PathsOf(saved)
    {
      var i := 0;
      while i < |saved|
        invariant 0 <= i <= |saved|
        invariant files == old(files) - PathsOf(saved[..i])
      {
        assert saved[..i + 1] == saved[..i] + [saved[i]];
        PathsOfAppend(saved[..i], saved[i]);
        if saved[i].Some? {
          Remove(saved[i].value);
        }
        i := i + 1;
      }
      assert saved[..i] == saved;
    }
  }

  predicate AllAssigned(saved: seq<Option<string>>) {
    forall k :: 0 <= k < |saved| ==> saved[k].Some?
  }

  /** The paths held by the saved variables. */
  function PathsOf(saved: seq<Option<string>>): (paths: set<string>)
    ensures forall p :: p in paths <==> Some(p) in saved
  {
    set k | 0 <= k < |saved| && saved[k].Some? :: saved[k].value
  }

  lemma PathsOfAppend(saved: seq<Option<string>>, last: Option<string>)
    ensures PathsOf(saved + [last]) == PathsOf(saved) + PathsOf([last])
  {
    assert forall p :: Some(p) in saved + [last] <==> Some(p) in saved || Some(p) == last;
  }

  /** The path a save created, if any. */
  function SavedPath(upload: Option<string>): set<string> {
    if upload.Some? then {upload.value} else {}
  }

  /** The paths of the three variables are those of the saves that ran. */
  lemma AssignedPaths(front: Option<string>, back: Option<string>, left: Option<string>)
    ensures var a := Assigned(front, back, left);
      PathsOf(a) == SavedPath(a[0]) + SavedPath(a[1]) + SavedPath(a[2])
  {
    var a := Assigned(front, back, left);
    forall p ensures p in PathsOf(a) <==> p in SavedPath(a[0]) + SavedPath(a[1]) + SavedPath(a[2]) {
      assert Some(p) in a <==> a[0] == Some(p) || a[1] == Some(p) || a[2] == Some(p);
    }
  }

  /** What the as-written `finally` removes. */
  function RemovedAsWritten(saved: seq<Option<string>>): set<string> {
    if AllAssigned(saved) then PathsOf(saved) else {}
  }

  /** The three variables after the saves: a variable after the first
    * failed save is never assigned. */
  function Assigned(front: Option<string>, back: Option<string>, left: Option<string>): (a: seq<Option<string>>)
    ensures |a| == 3
    ensures AllAssigned(a) <==> front.Some? && back.Some? && left.Some?
  {
    var a := [front, if front.Some? then back else None, if front.Some? && back.Some? then left else None];
    assert AllAssigned(a) ==> a[0].Some? && a[1].Some? && a[2].Some?;
    a
  }

  /** As written: when the second save fails, the first upload stays in
    * the temp folder. */
  lemma UploadLeaks(before: set<string>, path: string)
    ensures var a := Assigned(Some(path), None, None);
      path in (before + PathsOf(a)) - RemovedAsWritten(a)
  {
    var a := Assigned(Some(path), None, None);
    assert a[0] == Some(path);
  }

  /** As written, a saved upload is left behind exactly when the first
    * save succeeded and a later one failed. */
  lemma LeakIffLaterSaveFails(before: set<string>, front: Option<string>, back: Option<string>, left: Option<string>)
    ensures var a := Assigned(front, back, left);
      (exists p :: p in PathsOf(a) && p in (before + PathsOf(a)) - RemovedAsWritten(a)) <==>
      front.Some? && !(back.Some? && left.Some?)
  {
    var a := Assigned(front, back, left);
    if front.Some? {
      assert a[0] == front;
      assert front.value in PathsOf(a);
    } else {
      assert PathsOf(a) == {} by {
        forall p ensures p !in PathsOf(a) {
          assert a[0] == None && a[1] == None && a[2] == None;
        }
      }
    }
  }

  /** When every save succeeds, both versions of the cleanup agree. */
  lemma CleanupsAgreeWhenSaved(saved: seq<Option<string>>)
    requires AllAssigned(saved)
    ensures RemovedAsWritten(saved) == PathsOf(saved)
  {
  }

  // ---------------------------------------------------------------------
  // The endpoint

  /** The part of the `try` after the saves: submit, poll, and answer with
    * the newest GLB; `missingCode` is the status when there is none. */
  function JobResponse(missingCode: nat, submit: SubmitReply, replies: seq<PollReply>,
                       listing: seq<FileEntry>, outputDir: string): (r: ComfyMvApi.Response<Download>)
    ensures r.Failed? ==> r.code == 500 || r.code == missingCode
    ensures r == ComfyMvApi.Failed(missingCode) && missingCode != 500 ==>
      QueuePrompt(submit).Ok? && StrictPoll(replies, QueuePrompt(submit).value).Finished? && LatestGlb(listing, outputDir).None?
    ensures r.Replied? <==>
      QueuePrompt(submit).Ok? && StrictPoll(replies, QueuePrompt(submit).value).Finished? && LatestGlb(listing, outputDir).Some?
  {
    match QueuePrompt(submit)
    case Err(_) => ComfyMvApi.Failed(500)
    case Ok(id) =>
      match StrictPoll(replies, id)
      case Raised(_, _) => ComfyMvApi.Failed(500)
      case Waiting(_) => ComfyMvApi.StillWaiting
      case Finished(_, _) =>
        match LatestGlb(listing, outputDir)
        case None => ComfyMvApi.Failed(missingCode)
        case Some(d) => ComfyMvApi.Replied(d)
  }

  /**
   * `/generate_hy3d`, given what the saves, the job server and the GLB
   * folder produce. A failed save, like every other exception inside the
   * `try`, becomes a 500.
   */
  function Hy3dResponseWith(missingCode: nat, front: Option<string>, back: Option<string>, left: Option<string>,
                            submit: SubmitReply, replies: seq<PollReply>,
                            listing: seq<FileEntry>, outputDir: string): ComfyMvApi.Response<Download>
  {
    if front.Some? && back.Some? && left.Some? then JobResponse(missingCode, submit, replies, listing, outputDir)
    else ComfyMvApi.Failed(500)
  }

  /** The endpoint as written: the 404 raised inside the `try` is caught
    * by `except Exception` and raised again as a 500. */
  function Hy3dResponse(front: Option<string>, back: Option<string>, left: Option<string>,
                        submit: SubmitReply, replies: seq<PollReply>,
                        listing: seq<FileEntry>, outputDir: string): (r: ComfyMvApi.Response<Download>)
    ensures r.Failed? ==> r.code == 500
  {
    Hy3dResponseWith(500, front, back, left, submit, replies, listing, outputDir)
  }

  /** The endpoint as intended: a missing GLB is reported as a 404. */
  function Hy3dResponseIntended(front: Option<string>, back: Option<string>, left: Option<string>,
                                submit: SubmitReply, replies: seq<PollReply>,
                                listing: seq<FileEntry>, outputDir: string): (r: ComfyMvApi.Response<Download>)
    ensures r.Failed? ==> r.code == 500 || r.code == 404
  {
    Hy3dResponseWith(404, front, back, left, submit, replies, listing, outputDir)
  }

  /** As written: a finished job without any GLB is answered with 500. */
  lemma MissingGlbGives500(front: string, back: string, left: string, submit: SubmitReply,
                           replies: seq<PollReply>, listing: seq<FileEntry>, outputDir: string, id: string)
    requires QueuePrompt(submit) == Ok(id) && StrictPoll(replies, id).Finished?
    requires forall f :: f in listing ==> !Matches(GlbPattern, f.name)
    ensures Hy3dResponse(Some(front), Some(back), Some(left), submit, replies, listing, outputDir) == ComfyMvApi.Failed(500)
  {
    assert |Glob(listing, GlbPattern)| == 0 by {
      if |Glob(listing, GlbPattern)| > 0 {
        assert Glob(listing, GlbPattern)[0] in Glob(listing, GlbPattern);
      }
    }
  }

  /** As intended: the client sees 404 exactly when the finished job left
    * no GLB, and otherwise the newest one. */
  lemma IntendedMissingGlbGives404(front: string, back: string, left: string, submit: SubmitReply,
                                   replies: seq<PollReply>, listing: seq<FileEntry>, outputDir: string, id: string)
    requires forall f :: f in listing ==> '/' !in f.name
    requires QueuePrompt(submit) == Ok(id) && StrictPoll(replies, id).Finished?
    ensures var r := Hy3dResponseIntended(Some(front), Some(back), Some(left), submit, replies, listing, outputDir);
      && (r == ComfyMvApi.Failed(404) <==> forall f :: f in listing ==> !Matches(GlbPattern, f.name))
      && (r.Replied? <==> exists f :: f in listing && Matches(GlbPattern, f.name))
  {
    LatestGlbIsNewest(listing, outputDir);
  }

  /** The endpoint never answers 404 as written; the intended version
    * differs from it only there. */
  lemma Only404Differs(front: Option<string>, back: Option<string>, left: Option<string>,
                       submit: SubmitReply, replies: seq<PollReply>, listing: seq<FileEntry>, outputDir: string)
    ensures var written := Hy3dResponse(front, back, left, submit, replies, listing, outputDir);
      var intended := Hy3dResponseIntended(front, back, left, submit, replies, listing, outputDir);
      written != intended ==> written == ComfyMvApi.Failed(500) && intended == ComfyMvApi.Failed(404)
  {
  }

  /** The `try` after the saves; `missingCode` is the status the client
    * sees when no GLB exists. */
  method RunJob(missingCode: nat, frontImg: string, backImg: string, leftImg: string,
                submit: SubmitReply, replies: seq<PollReply>, listing: seq<FileEntry>, outputDir: string)
    returns (sent: Envelope<Graph<Hy3dWorkflow.NodeId>>, response: ComfyMvApi.Response<Download>)
    ensures sent == Envelope(Hy3dWorkflow.Build(frontImg, backImg, leftImg))
    ensures response == JobResponse(missingCode, submit, replies, listing, outputDir)
  {
    sent := Envelope(Hy3dWorkflow.Build(frontImg, backImg, leftImg));
    var queued := QueuePrompt(submit);
    if queued.Err? {
      return sent, ComfyMvApi.Failed(500);
    }
    var outcome, _, _ := CheckProgress(queued.value, ComfyIp, replies);
    if outcome.Raised? {
      return sent, ComfyMvApi.Failed(500);
    }
    if outcome.Waiting? {
      return sent, ComfyMvApi.StillWaiting;
    }
    var glb := LatestGlb(listing, outputDir);
    if glb.None? {
      return sent, ComfyMvApi.Failed(missingCode);
    }
    response := ComfyMvApi.Replied(glb.value);
  }

  /** The whole request: saves, workflow, job, answer, and the `finally`
    * block as written. */
  method GenerateHy3d(front: Option<string>, back: Option<string>, left: Option<string>,
                      submit: SubmitReply, replies: seq<PollReply>,
                      listing: seq<FileEntry>, outputDir: string, tmp: TempDir)
    returns (sent: Option<Envelope<Graph<Hy3dWorkflow.NodeId>>>, response: ComfyMvApi.Response<Download>)
    modifies tmp
    ensures response == Hy3dResponse(front, back, left, submit, replies, listing, outputDir)
    ensures sent.Some? <==> front.Some? && back.Some? && left.Some?
    ensures sent.Some? ==> sent.value == Envelope(Hy3dWorkflow.Build(front.value, back.value, left.value))
    ensures var a := Assigned(front, back, left);
      tmp.files == (old(tmp.files) + PathsOf(a)) - RemovedAsWritten(a)
  {
    sent := None;
    var frontImg := tmp.Save(front);
    var backImg: Option<string> := None;
    var leftImg: Option<string> := None;
    if frontImg.Some? {
      backImg := tmp.Save(back);
      if backImg.Some? {
        leftImg := tmp.Save(left);
      }
    }
    var a := [frontImg, backImg, leftImg];
    assert a == Assigned(front, back, left);
    AssignedPaths(front, back, left);
    if leftImg.None? {
      response := ComfyMvApi.Failed(500);
    } else {
      var job;
      job, response := RunJob(500, frontImg.value, backImg.value, leftImg.value, submit, replies, listing, outputDir);
      sent := Some(job);
    }
    var _ := tmp.Cleanup(a);
  }

  /**
   * The request as the code evidently intends it: the 404 reaches the
   * client, and the `finally` block removes every upload that was saved,
   * whichever save failed.
   */
  method GenerateHy3dIntended(front: Option<string>, back: Option<string>, left: Option<string>,
                              submit: SubmitReply, replies: seq<PollReply>,
                              listing: seq<FileEntry>, outputDir: string, tmp: TempDir)
    returns (sent: Option<Envelope<Graph<Hy3dWorkflow.NodeId>>>, response: ComfyMvApi.Response<Download>)
    modifies tmp
    ensures response == Hy3dResponseIntended(front, back, left, submit, replies, listing, outputDir)
    ensures sent.Some? <==> front.Some? && back.Some? && left.Some?
    ensures sent.Some? ==> sent.value == Envelope(Hy3dWorkflow.Build(front.value, back.value, left.value))
    ensures var a := Assigned(front, back, left);
      tmp.files == old(tmp.files) - PathsOf(a)
    ensures forall p :: Some(p) in Assigned(front, back, left) ==> p !in tmp.files
  {
    sent := None;
    var frontImg := tmp.Save(front);
    var backImg: Option<string> := None;
    var leftImg: Option<string> := None;
    if frontImg.Some? {
      backImg := tmp.Save(back);
      if backImg.Some? {
        leftImg := tmp.Save(left);
      }
    }
    var a := [frontImg, backImg, leftImg];
    assert a == Assigned(front, back, left);
    AssignedPaths(front, back, left);
    if leftImg.None? {
      response := ComfyMvApi.Failed(500);
    } else {
      var job;
      job, response := RunJob(404, frontImg.value, backImg.value, leftImg.value, submit, replies, listing, outputDir);
      sent := Some(job);
    }
    tmp.CleanupAssigned(a);
  }
}
