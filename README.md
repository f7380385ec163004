# ProjectISG-AI_3D: the image-to-3D request pipeline, modelled in Dafny

ProjectISG-AI_3D turns a text prompt into a textured 3D model in three
steps, each backed by a ComfyUI job server:

1. `POST /generate` (comfy_mv_api.py) submits a text-to-image workflow,
   polls the job's history until it appears and reports the last image
   the job saved.
2. `POST /generate_mv_adapter` (comfy_mv_api.py) submits a multi-view
   workflow that reads that image and reports the first image node's last
   named image. It then renames the last three saved `ComfyUI_*.png`
   views of the output folder, in name order, to `…_front.png`,
   `…_back.png` and `…_left.png`.
3. `POST /generate_hy3d` (hy3d_api.py) saves the three uploaded views to
   temporary files and submits a mesh-and-texture workflow that loads
   them. It waits for the job and answers with the newest
   `Hy3D_textured*.glb` of `output/3D`. Its `finally` block then deletes
   the temporary files, but only when all three were saved: after a
   failed save it stops with a NameError and removes nothing (see
   Findings).

The Streamlit page (stream2.py) drives the three steps. It picks the
newest PNG and the newest image named after each view from the output
folder, and it stores the downloaded GLB under
`Hy3D_textured_<16 hex digits>.glb`. The page also defines
`find_latest_glb` (stream2.py:44-46), which picks the newest GLB of a
folder, but never calls it. The model still compares that helper with
the 3D server's choice.

The page reads its folder from `OUTPUT_DIR` (stream2.py:13-15), and the
3D server reads its folder from `OUTPUT_3D_DIR` (hy3d_api.py:21). They
name the same folder only when the two variables agree.
`Stream.StoredGlbIsServed` states that agreement as a precondition.

The model covers:

- **Strings, Paths, Files, Hex.** Python's string operations, `os.path`
  joining and base names, glob matching with `max` by a timestamp, and
  `bytes.hex()`.
- **Workflow plus one module per workflow.** The workflow dictionaries
  are modelled as graphs. Each has lemmas for the slots the arguments
  fill, for link integrity, for what stays fixed, and for recovering the
  arguments. `Workflow.Input` is the model's own lookup of an `inputs`
  dictionary; the slot lemmas read the workflows through it.
- **Link integrity.** Each workflow's node ids form a subset type, so
  every `Link` literal in its dictionary is checked, where it is
  written, to name a node that exists. The `BuildLinksResolve` lemmas
  then hold with empty bodies: the typing carries the proof, not the
  lemmas.
- **Jobs.** The job server's protocol and the two polling disciplines:
  the MV server retries on every failure, the Hy3D server lets failures
  escape.
- **ComfyMvApi.** The two MV endpoints together with their extraction
  loops.
- **ViewRename.** The rename plan and a `Directory` class whose `Rename`
  and `ApplyPlan` methods change its entries in place.
- **Hy3dApi.** The Hy3D endpoint, with a `TempDir` class for the
  temporary files and the `finally` clean-up.
- **Stream.** The page's helper functions.

The outside world is passed in as parameters:

- the job server's replies: one reply per request, already decoded from
  JSON;
- directory listings: names with modification and change times, in the
  order the directory lists them;
- the eight random bytes of `os.urandom`;
- the environment variables, as `Option<string>`.

Five places where the behaviour follows the code rather than the
design description of the repository:

- no loop has a timeout;
- the rename step picks the last three files by name, not by time;
- `generate_hy3d` turns its own 404 into a 500 (see Findings);
- an empty `prompt_id` is accepted like any other
  (comfy_mv_api.py:287, hy3d_api.py:48);
- in `/generate`, an image without `filename` raises KeyError, which is
  answered with 500 (comfy_mv_api.py:317). It is not skipped.

## Model

| member | source | states |
|---|---|---|
| ComfyMvApi.QueuePrompt | comfy_mv_api.py:282-289 | a prompt id is returned exactly when the request succeeded and the reply has `prompt_id`, and it is that field; every other outcome is an HTTP 500 |
| ComfyMvApi.CheckProgress | comfy_mv_api.py:291-301 | the loop ends as `RetryingPoll` says: with the first reply that holds the job, failed requests being retried; it requests `/history/<id>` once per poll, and the seconds it sleeps are `SecondsSlept`, 3 per reply without the job |
| Jobs.HistoryUrl | comfy_mv_api.py:294 | the URL `http://{ip}/history/{prompt_id}` each poll requests; the `CheckProgress` methods state that every request goes to it |
| Jobs.FirstWithJob | comfy_mv_api.py:297-298 | the index found holds the job and no earlier reply does; none is found only if no reply holds it |
| Jobs.RetryingPoll | comfy_mv_api.py:291-301 | a loop that swallows every exception never raises; when it finishes, `sleeps` is the index of the first reply holding the job, and the result is that reply's entry for the id; when it is still waiting, no reply held the job |
| Jobs.FirstStop | hy3d_api.py:50-57 | the index found is the first reply that failed or holds the job |
| Jobs.StrictPoll | hy3d_api.py:50-57 | a loop that lets request failures escape can only raise the request failure, and only at a failed reply; it finishes at a reply holding the job, with that reply's entry; no earlier reply failed or held the job; when it is still waiting, none did |
| Jobs.PollsAgreeWithoutFailures | hy3d_api.py:50-57 | if no request fails, the strict loop and the retrying loop end the same way |
| Jobs.StrictFinishedImpliesRetryingFinished | hy3d_api.py:50-57 | whenever the strict loop finishes, the retrying loop finishes with the same result after the same number of sleeps |
| Jobs.FailureBeforeJob | hy3d_api.py:50-57 | a failed request before the job appears ends the strict loop with that failure, while the retrying loop is not finished by then |
| ComfyMvApi.ImageUrl | comfy_mv_api.py:318 | the URL `{host_ip}/images/{name}` is non-empty and ends with the file name |
| ComfyMvApi.ImageUrlNamesFile | comfy_mv_api.py:318 | the file name can be read back from the URL |
| ComfyMvApi.Summary | comfy_mv_api.py:312-319 | there is a URL exactly when there is a file name, and the URL is built from that name |
| ComfyMvApi.Status | comfy_mv_api.py:321 | `"completed" if file_image_url else "fail"`: always one of the two; "fail" when there is no URL, "completed" for any non-empty URL |
| ComfyMvApi.LastImage | comfy_mv_api.py:312-319 | extraction fails (KeyError) exactly when `outputs` is missing or some image has no `filename`; otherwise a name is found exactly when some node has images |
| ComfyMvApi.AllImagesPrefix | comfy_mv_api.py:314-316 | the images of the first nodes are a prefix of the images of all nodes |
| ComfyMvApi.UnnamedImage | comfy_mv_api.py:317 | one image without `filename` anywhere makes the extraction fail |
| ComfyMvApi.NamedStep | comfy_mv_api.py:316-318 | a named image last seen sets the URL and the name to that image |
| ComfyMvApi.ExtractLastImage | comfy_mv_api.py:312-319 | the nested loop computes `LastImage` |
| ComfyMvApi.LastNodeWithImages | comfy_mv_api.py:314-315 | finds the last node with a non-empty `images` list; no later node has images |
| ComfyMvApi.LastImageOfLastNode | comfy_mv_api.py:314-318 | some image exists exactly when some node has images, and the last image overall is the last image of the last such node |
| ComfyMvApi.LastImageReported | comfy_mv_api.py:312-324 | the reported file name is the last image of the last node that has images, and nothing is reported when no node has images |
| ComfyMvApi.FirstImagesNode | comfy_mv_api.py:339-345 | finds the first node that has an `images` key; no earlier node has one |
| ComfyMvApi.LastNamed | comfy_mv_api.py:342-344 | computes the name of the last image carrying `filename`; `LastNamedMembers` states what it finds |
| ComfyMvApi.LastNamedMembers | comfy_mv_api.py:342-344 | no name is found exactly when no image has `filename`; otherwise the name is that of the last image that has one |
| ComfyMvApi.MvImage | comfy_mv_api.py:337-345 | the extraction rule of `/generate_mv_adapter`: it fails only when `outputs` is missing, since images without `filename` are skipped, and it finds no URL when no node has `images` |
| ComfyMvApi.ExtractMvImage | comfy_mv_api.py:337-345 | the loop that stops at the first `images` node computes `MvImage` |
| ComfyMvApi.LaterNodesIgnored | comfy_mv_api.py:345 | nodes after the first `images` node do not change the answer |
| ComfyMvApi.FirstNodeDecides | comfy_mv_api.py:339-359 | if the first `images` node has no named image, the answer is "fail" even if later nodes have images |
| ComfyMvApi.MvImageOfFirstNode | comfy_mv_api.py:342-344 | a reported URL is that of the last named image of the first `images` node |
| ComfyMvApi.AllImagesEmpty | comfy_mv_api.py:314-316 | with no `images` key anywhere there are no images |
| ComfyMvApi.AllImagesOfOnlyNode | comfy_mv_api.py:314-316 | with a single `images` node, all images are that node's images |
| ComfyMvApi.RulesAgreeOnOneNode | comfy_mv_api.py:312-345 | with one images node whose images are all named, the two endpoints' extraction rules report the same URL |
| ComfyMvApi.ImageResponse | comfy_mv_api.py:305-326 | `/generate` fails only with status 500 |
| ComfyMvApi.ImageReplyConsistent | comfy_mv_api.py:320-324 | a reply is "completed" exactly when it names a file, its status is "completed" or "fail", and its URL belongs to the named file |
| ComfyMvApi.ImageNeedsJob | comfy_mv_api.py:309-310 | a reply exists only if the job was submitted and some poll held it |
| ComfyMvApi.GenerateImage | comfy_mv_api.py:305-326 | sends the text-to-image workflow for the two prompts; its response is `ImageResponse` |
| ComfyMvApi.MvResponse | comfy_mv_api.py:330-361 | `/generate_mv_adapter` fails only with status 500 |
| ComfyMvApi.MvAnswersOnceRead | comfy_mv_api.py:337-359 | the renames succeed on a faithful listing of distinct names, so the answer is the extracted URL with its status |
| ComfyMvApi.GenerateMvAdapter | comfy_mv_api.py:330-361 | sends the multi-view workflow; the response and the output folder's new entries are those of `MvResponse` |
| ViewRename.IsCandidate | comfy_mv_api.py:350 | the filter: the name ends in `.png` and starts with `ComfyUI_`; `Candidates` and `NewNameIsCandidate` state its uses |
| ViewRename.Candidates | comfy_mv_api.py:350 | keeps exactly the listed names that end in `.png` and start with `ComfyUI_` |
| ViewRename.LastThree | comfy_mv_api.py:352 | `files[-3:]`: the last min(3, n) names, in order |
| ViewRename.RenamePlan | comfy_mv_api.py:347-357 | the plan renames the last min(3, n) candidates in name order, each zipped with front, back and left and given the name `replace` makes |
| ViewRename.NewName | comfy_mv_api.py:355 | computes `old_name.replace("_.png", f"_{view}.png")`; `NewNameWithoutMarker`, `ReplaceKeepsPngEnding` and `SavedNameGetsView` state its properties |
| ViewRename.NewNameWithoutMarker | comfy_mv_api.py:355 | a name without `_.png` keeps its name, so the rename is a no-op |
| ViewRename.ReplaceKeepsPngEnding | comfy_mv_api.py:355 | replacing `_.png` with text ending in `.png` keeps the `.png` ending |
| ViewRename.NewNameIsCandidate | comfy_mv_api.py:350-355 | a renamed file is a candidate again for every later request |
| ViewRename.SavedNameGetsView | comfy_mv_api.py:355 | a saved name `ComfyUI_<digits>_.png` becomes `ComfyUI_<digits>_<view>.png` |
| ViewRename.PlanTargetsAreCandidates | comfy_mv_api.py:350-357 | every new name of the plan is a candidate |
| ViewRename.PlanSourcesDistinct | comfy_mv_api.py:349-353 | a listing of distinct names gives a plan with distinct old names |
| ViewRename.CandidatesDistinct | comfy_mv_api.py:350 | filtering keeps names distinct |
| ViewRename.PermutationKeepsDistinct | comfy_mv_api.py:349 | sorting keeps names distinct |
| ViewRename.Renamed | comfy_mv_api.py:357 | `os.rename` on POSIX: the entry moves to the new name, replacing any entry there, and every other entry is kept |
| ViewRename.ApplyRenames | comfy_mv_api.py:353-357 | computes the folder after the renames one at a time, stopping with FileNotFoundError at the first missing source; `Directory.ApplyPlan` is proved to follow it, and `DistinctPlanSucceeds`, `OthersUntouched` and `PlanSucceeds` state its properties |
| ViewRename.DistinctPlanSucceeds | comfy_mv_api.py:353-357 | renames whose sources exist and are distinct never hit a missing file |
| ViewRename.OthersUntouched | comfy_mv_api.py:353-357 | a file named neither as a source nor as a target keeps its entry |
| ViewRename.PlanSucceeds | comfy_mv_api.py:347-357 | on a listing that enumerates the folder, the whole plan succeeds |
| ViewRename.Directory.Rename | comfy_mv_api.py:357 | renames in place; a missing source raises FileNotFoundError and leaves the folder unchanged |
| ViewRename.Directory.ApplyPlan | comfy_mv_api.py:353-357 | the loop leaves the folder and the failure that `ApplyRenames` describes: it stops at the first failure |
| PromptWorkflow.Build | comfy_mv_api.py:31-129 | the dictionary has every node id of the workflow |
| PromptWorkflow.BuildLinksResolve | comfy_mv_api.py:31-129 | every `[node, output]` link names a node of the workflow |
| PromptWorkflow.PromptSlot | comfy_mv_api.py:73 | node 6's text is the user prompt followed by the style words |
| PromptWorkflow.NegativeSlot | comfy_mv_api.py:83 | node 7's text is the negative prompt followed by the defect words |
| PromptWorkflow.PositiveConditioning | comfy_mv_api.py:42 | the sampler's positive input is node 6 |
| PromptWorkflow.NegativeConditioning | comfy_mv_api.py:43 | the sampler's negative input is node 7 |
| PromptWorkflow.OnlyTextNodesVary | comfy_mv_api.py:31-129 | every node except 6 and 7 is the same whatever the arguments |
| PromptWorkflow.SavePrefix | comfy_mv_api.py:119-122 | node 9 saves the image under the prefix `ComfyUI` |
| PromptWorkflow.TextBefore | comfy_mv_api.py:71-90 | a text recovered from a node really is that node's text minus the suffix |
| PromptWorkflow.ArgumentsRecoverable | comfy_mv_api.py:71-90 | both prompts can be read back from the workflow |
| PromptWorkflow.BuildInjective | comfy_mv_api.py:31-129 | different prompts give different workflows |
| MvAdapterWorkflow.Build | comfy_mv_api.py:133-278 | the dictionary has every node id of the workflow |
| MvAdapterWorkflow.BuildLinksResolve | comfy_mv_api.py:133-278 | every link names a node of the workflow |
| MvAdapterWorkflow.PromptSlot | comfy_mv_api.py:188 | node 6's prompt is the user prompt followed by `, high quality` |
| MvAdapterWorkflow.ReferenceSlot | comfy_mv_api.py:207 | node 7 loads the reference file from the ComfyUI output folder |
| MvAdapterWorkflow.PreprocessorReadsReference | comfy_mv_api.py:219 | the preprocessor reads the loaded reference image |
| MvAdapterWorkflow.SamplerReadsPreprocessed | comfy_mv_api.py:197 | the sampler reads the preprocessed image |
| MvAdapterWorkflow.OnlySlotNodesVary | comfy_mv_api.py:133-278 | every node except 6 and 7 is the same whatever the arguments |
| MvAdapterWorkflow.SelectedViews | comfy_mv_api.py:263-271 | the view selector turns on front, back and left, in that order |
| MvAdapterWorkflow.SavePrefix | comfy_mv_api.py:253-256 | node 12 saves the views under the prefix `ComfyUI` |
| MvAdapterWorkflow.ReferenceOf | comfy_mv_api.py:207 | a recovered file name really is the one node 7 loads |
| MvAdapterWorkflow.PromptOf | comfy_mv_api.py:188 | a recovered prompt really is the one of node 6 |
| MvAdapterWorkflow.ArgumentsRecoverable | comfy_mv_api.py:185-213 | both arguments can be read back from the workflow |
| MvAdapterWorkflow.BuildInjective | comfy_mv_api.py:133-278 | different arguments give different workflows |
| Hy3dWorkflow.Build | hy3d_api.py:63-919 | the dictionary has every node id of the workflow |
| Hy3dWorkflow.BuildLinksResolve | hy3d_api.py:63-919 | every link of the 57 nodes names a node of the workflow |
| Hy3dWorkflow.FrontSlot | hy3d_api.py:571-579 | node 157 is a LoadImage of the front image |
| Hy3dWorkflow.BackSlot | hy3d_api.py:580-588 | node 159 is a LoadImage of the back image |
| Hy3dWorkflow.LeftSlot | hy3d_api.py:589-597 | node 160 is a LoadImage of the left image |
| Hy3dWorkflow.OnlyImageNodesVary | hy3d_api.py:63-919 | every node except 157, 159 and 160 is the same whatever the arguments |
| Hy3dWorkflow.TexturedExportPrefix | hy3d_api.py:341-343 | node 99 exports the textured mesh under `3D/Hy3D_textured`, the prefix the endpoint globs for |
| Hy3dWorkflow.TexturedExportFormat | hy3d_api.py:344 | node 99 exports in GLB format |
| Hy3dWorkflow.ImageOf | hy3d_api.py:571-597 | a recovered path really is the one the node loads |
| Hy3dWorkflow.ArgumentsRecoverable | hy3d_api.py:571-597 | the three image paths can be read back from the workflow |
| Hy3dWorkflow.BuildInjective | hy3d_api.py:63-919 | different image paths give different workflows |
| Workflow.InputMembers | comfy_mv_api.py:31-278 | the model's lookup of a node's `inputs` dictionary, which the slot lemmas use to read the workflow literals, those of hy3d_api.py:63-919 included: it finds nothing exactly when no entry has the key, and what it finds is stored under that key |
| Workflow.InputAt | comfy_mv_api.py:31-278 | the same lookup, also used on the literal of hy3d_api.py:63-919, finds the value of the first entry with the key |
| Workflow.TrueInputsMembers | comfy_mv_api.py:265-270 | a name is listed exactly when some entry sets it to `true` |
| Hy3dApi.OutputDir | hy3d_api.py:21 | `os.getenv("OUTPUT_3D_DIR", "output")`: the variable's value, or `output` when it is unset |
| Hy3dApi.QueuePrompt | hy3d_api.py:44-48 | a prompt id is returned exactly when the reply has one; a failed request raises it, and a missing field raises KeyError('prompt_id') |
| Hy3dApi.QueueVariantsAgree | hy3d_api.py:44-48 | both servers' `queue_prompt` accept the same replies with the same id; the MV server maps every error to 500 |
| Hy3dApi.CheckProgress | hy3d_api.py:50-57 | the loop ends as `StrictPoll` says; it requests `/history/<id>` once per poll and sleeps `SecondsSlept`, 3 s per reply without the job |
| Hy3dApi.InsertByTime | hy3d_api.py:944 | inserting into a newest-first list keeps it newest-first and keeps its elements |
| Hy3dApi.SortByTimeDesc | hy3d_api.py:944 | the sorted list is newest-first and a permutation of the input |
| Hy3dApi.InsertHead | hy3d_api.py:944 | an inserted file that is not older than the head comes first, because the sort is stable |
| Hy3dApi.SortHeadIsNewest | hy3d_api.py:944-949 | after the sort, `glb_files[0]` is the first newest file, the one `max` picks |
| Hy3dApi.LatestGlb | hy3d_api.py:943-951 | computes the download: the head of the sorted glob of `<out>/3D` and its base name, or none; `LatestGlbIsNewest` states what it picks |
| Hy3dApi.LatestGlbIsNewest | hy3d_api.py:943-951 | the endpoint serves the newest matching GLB of `output/3D` under its base name, and none exists when nothing matches |
| Hy3dApi.TempDir.Save | hy3d_api.py:38-42 | a saved upload adds its path to the temporary folder |
| Hy3dApi.TempDir.Remove | hy3d_api.py:957-958 | removing takes the path out of the folder |
| Hy3dApi.TempDir.Cleanup | hy3d_api.py:955-958 | the `finally` raises NameError exactly when a view was never assigned, and then removes nothing; otherwise it removes all three files |
| Hy3dApi.TempDir.CleanupAssigned | hy3d_api.py:955-958 | the intended clean-up removes every saved path |
| Hy3dApi.PathsOf | hy3d_api.py:933-935 | the paths of the views that were saved |
| Hy3dApi.PathsOfAppend | hy3d_api.py:933-935 | the paths grow one save at a time |
| Hy3dApi.AssignedPaths | hy3d_api.py:933-935 | the saved paths are those of the three views that got one |
| Hy3dApi.Assigned | hy3d_api.py:933-935 | all three views are assigned exactly when all three saves succeed |
| Hy3dApi.UploadLeaks | hy3d_api.py:933-958 | a first upload saved before the second one fails stays in the folder |
| Hy3dApi.LeakIffLaterSaveFails | hy3d_api.py:933-958 | as written, a saved upload stays behind exactly when the first save succeeded and a later one failed |
| Hy3dApi.CleanupsAgreeWhenSaved | hy3d_api.py:955-958 | when all three saves succeed, the written clean-up removes the same files as the intended one |
| Hy3dApi.JobResponse | hy3d_api.py:938-951 | the `try` after the saves: a file exactly when the job was queued, finished and left a GLB; every failure is 500 except the missing GLB, which gets `missingCode`, and only then |
| Hy3dApi.Hy3dResponseWith | hy3d_api.py:925-954 | a failed save answers 500; otherwise the answer is `JobResponse`; `Hy3dResponse` and `Hy3dResponseIntended` state its two instances |
| Hy3dApi.Hy3dResponse | hy3d_api.py:925-958 | the endpoint, as written, fails only with status 500 |
| Hy3dApi.Hy3dResponseIntended | hy3d_api.py:945-946 | the endpoint with the 404 passed through: it fails only with 500 or 404 |
| Hy3dApi.MissingGlbGives500 | hy3d_api.py:945-954 | a finished job with no matching GLB gets 500, not the 404 that is raised |
| Hy3dApi.IntendedMissingGlbGives404 | hy3d_api.py:945-946 | with the 404 passed through, a finished job gets 404 exactly when no GLB matches, and a file exactly when one does |
| Hy3dApi.Only404Differs | hy3d_api.py:945-954 | the written and the intended endpoint differ only by answering 500 where 404 was meant |
| Hy3dApi.RunJob | hy3d_api.py:938-951 | sends the workflow for the three paths; its response is `JobResponse` for the given missing-GLB status |
| Hy3dApi.GenerateHy3d | hy3d_api.py:925-958 | the workflow is sent exactly when all three uploads were saved; the response is `Hy3dResponse`, and the temporary folder keeps the saved paths the `finally` does not reach |
| Hy3dApi.GenerateHy3dIntended | hy3d_api.py:925-958 | the request as intended: the same workflow is sent when all three uploads were saved; the response is `Hy3dResponseIntended`; afterwards the temporary folder holds no saved upload and lost nothing else |
| Files.Glob | stream2.py:34 | keeps exactly the listed files whose names match the pattern |
| Files.GlobAppend | stream2.py:45 | a file added to the folder joins the matches exactly when its name matches |
| Files.NewestIndex | stream2.py:35 | the index `max(files, key=...)` picks: a newest file, and no earlier file is as new |
| Files.NewestIndexUnique | stream2.py:35 | that index is the only one with both properties |
| Files.Newest | stream2.py:35 | none for an empty list; otherwise a listed file at least as new as every other |
| Files.NewestOfAppend | stream2.py:46 | a file newer than all others is the one `max` picks |
| Stream.OutputDir | stream2.py:13-14 | `os.getenv("OUTPUT_DIR", "output")`: the variable's value, or `output` when it is unset |
| Stream.StaticDir | stream2.py:15 | `os.path.join(OUTPUT_DIR, "3D")`, the folder the page stores GLBs in |
| Stream.FindLatestPng | stream2.py:33-35 | the newest `*.png` of the folder by change time; `NewestPathIsNewest` with `ChangedTime` states what it picks |
| Stream.LatestNamed | stream2.py:39-41 | the newest `*<key>*.png` by modification time; `NewestPathIsNewest` with `ModifiedTime` states what it picks |
| Stream.NewestPathIsNewest | stream2.py:33-41 | none exactly when no file matches; otherwise the folder path of a matching file at least as new as every match |
| Stream.NamedImages | stream2.py:37-42 | the result has exactly the keys it was asked for |
| Stream.FindLatestNamedImages | stream2.py:37-42 | the loop builds the map `NamedImages` describes |
| Stream.ViewsShownIffAllPresent | stream2.py:90-91 | the views are shown exactly when each of front, back and left has a matching PNG |
| Stream.RenamedViewMatches | stream2.py:40-91 | a view renamed by the MV server matches the glob looked up for that view |
| Stream.FindLatestGlb | stream2.py:44-46 | the base name of the newest `Hy3D_textured*.glb`; the page defines it but never calls it; `PageAndServerAgree` and `StoredGlbIsLatest` state what it picks |
| Stream.PageAndServerAgree | stream2.py:44-46 | on one folder, the unused helper `find_latest_glb` gives the base name of the file the Hy3D server serves, ties included |
| Stream.RandomHex | stream2.py:48-49 | `os.urandom(8).hex()` is 16 lowercase hex digits that decode to the bytes |
| Stream.UniqueGlbName | stream2.py:133 | computes `f"Hy3D_textured_{hex}.glb"`; `UniqueGlbNameMatches` and `UniqueGlbNameIsPlain` state its properties |
| Stream.UniqueGlbNameMatches | stream2.py:133 | the stored GLB name matches `Hy3D_textured*.glb` |
| Stream.UniqueGlbNameIsPlain | stream2.py:133-134 | the stored name has no `/`, so it is the base name of its path |
| Stream.StoredGlbIsLatest | stream2.py:133-138 | once stored last, the GLB is the one `find_latest_glb` reports |
| Stream.StoredGlbIsServed | stream2.py:133-138 | if `OUTPUT_DIR` and `OUTPUT_3D_DIR` agree, a GLB the page stores newer than every file of the folder is what the Hy3D server answers with, under the page's path and name |
| Hex.ToHex | stream2.py:49 | two hex digits per byte |
| Hex.FromToHex | stream2.py:49 | decoding the hex text gives the bytes back |
| Hex.ToHexInjective | stream2.py:49 | different bytes give different names |
| Paths.Join | stream2.py:34 | `os.path.join` ends with the joined name |
| Paths.Basename | stream2.py:46 | `os.path.basename` has no `/` and ends the path |
| Files.Matches | stream2.py:34 | the glob rule for `prefix*suffix` and `prefix*infix*suffix`: the name starts with the prefix, ends with the suffix, holds the infix between them without overlap, and starts with `.` only if the prefix does; `Glob` and `GlobAppend` state its uses |
| Paths.BasenameOfJoin | hy3d_api.py:950 | the base name of a joined plain name is that name |
| Strings.ReplaceAll | comfy_mv_api.py:355 | computes `str.replace`, left to right without overlaps; `ReplaceAllWithoutOccurrence` states what it leaves alone |
| Strings.ReplaceAllWithoutOccurrence | comfy_mv_api.py:355 | `str.replace` leaves a string without the pattern unchanged |
| Strings.Sort | comfy_mv_api.py:349 | `sorted` gives an ordered permutation |
| Strings.SortedUnique | comfy_mv_api.py:349 | only one ordered permutation exists, so the sort is determined |

## Left out

- Uvicorn, FastAPI, Streamlit and `python-dotenv` are left out. The
  environment variables and the server replies are parameters.
- The bytes sent and received are not modelled. Replies arrive already
  decoded from JSON, and request bodies are the workflow values
  themselves.
- `time.sleep(3)` is not timed: the number of sleeps is counted instead.
- The polling loops run over a finite sequence of replies, standing in
  for `while True`. A loop that never sees the job ends as `Waiting`.
- Node ids of the workflows are numbers, not the decimal strings used as
  dictionary keys.
- Numbers and model names inside the workflows are kept as opaque
  constants. Floating-point literals keep only their text.
- Hy3dApi.SortByTimeDesc: `list.sort` is modelled on values, not in
  place.
- Hy3dApi.TempDir.Save: `tempfile.mkstemp` creates the file before the
  upload is written. A save that fails after that point, leaving an
  empty file behind, is not modelled. Paths are supplied, not generated.
- The text of exception details, media types and the ZIP download on the
  page are not modelled.
- The page's session state and `st.*` widgets are not modelled.
  core/config.py is not part of this model.
- Hy3dApi.GenerateHy3d: a NameError raised in `finally` is reported as a
  500 response. The model does not distinguish it from the 500 of the
  `except` branch.
- Timestamps are integers, while `getmtime` and `getctime` return
  floats. Only their order is used, so nothing is lost.
- ComfyMvApi.MvResponse: the folder listing is always given, so an
  `os.listdir("output")` that raises FileNotFoundError (answered with
  500 at comfy_mv_api.py:350 and 360-361) is not represented. The
  static-files mount at comfy_mv_api.py:16 checks only at start-up that
  the folder exists. The contract that every failure is a 500 would
  still hold.
- Stream.StoredGlbIsServed: `OUTPUT_DIR` and `OUTPUT_3D_DIR` are
  independent variables. The model does not promise that the page and
  the 3D server share a folder unless the two agree.
- Stream.FindLatestPng: `getctime` is the change time on POSIX. The model
  takes it as given per file and does not model how the operating system
  updates it.

## Findings

| source | as written | input that shows it | evidently intended | confidence | as-written member | corrected member |
|---|---|---|---|---|---|---|
| hy3d_api.py:945-954 | the `HTTPException(404)` raised when no GLB exists is caught by `except Exception` and re-raised as 500 | a job that finishes while `output/3D` has no `Hy3D_textured*.glb` | answer 404 when no GLB exists | high, not executed | Hy3dApi.MissingGlbGives500 | Hy3dApi.IntendedMissingGlbGives404 |
| hy3d_api.py:933-958 | when an upload save fails, the `finally` clause hits a NameError on the first unassigned variable, so no temporary file is removed | the second `save_upload_file` raises after the first has saved its file | remove every temporary file that was saved | medium, not executed | Hy3dApi.UploadLeaks | Hy3dApi.GenerateHy3dIntended |
