// The multi-view workflow built by `generate_mv_adapter_workflow`
// (comfy_mv_api.py): an MV-Adapter pipeline that turns one reference
// image and a prompt into several views, of which the view selector keeps
// front, back and left. The dictionary keys are decimal strings in the
// source; here they are the numbers they spell.

module MvAdapterWorkflow {
  import opened Options
  import opened Strings
  import opened Workflow

  /** Appended to the user's prompt. */
  const QualitySuffix: string := ", high quality"

  /** The job server's output folder, where the reference image was saved. */
  const ComfyOutputDir: string := "/home/wanted-1/ComfyUI/output/"

  /** The keys of the dictionary, as numbers. */
  predicate IsNodeId(id: nat) {
    id == 1 || id == 2 || id == 3 || id == 4 || id == 6 || id == 7 || id == 8 || id == 9 ||
    id == 10 || id == 11 || id == 12 || id == 13
  }

  type NodeId = id: nat | IsNodeId(id) witness 1

  // The entries that do not depend on the arguments, in groups of
  // ascending keys.

  function Fixed0(id: NodeId): Node<NodeId> {
    match id
    case 1 => Node<NodeId>.Node("LdmPipelineLoader", "LDM Pipeline Loader", [("ckpt_name", Value<NodeId>.Text("sdXL_v10VAEFix.safetensors")), ("pipeline_name", Text("MVAdapterI2MVSDXLPipeline"))])
    case 2 => Node<NodeId>.Node("DiffusersMVSchedulerLoader", "Diffusers MV Scheduler Loader", [("scheduler_name", Text("DDPM")), ("shift_snr", Bool(true)), ("shift_mode", Text("interpolated")), ("shift_scale", Int(8)), ("pipeline", Value<NodeId>.Link(1, 0))])
    case _ => Node<NodeId>.Node("LdmVaeLoader", "LDM Vae Loader", [("vae_name", Value<NodeId>.Text("sdxl_vae.safetensors")), ("upcast_fp32", Bool(true))])
  }

  function Fixed1(id: NodeId): Node<NodeId> {
    match id
    case 4 => Node<NodeId>.Node("DiffusersMVModelMakeup", "Diffusers MV Model Makeup", [("load_mvadapter", Bool(true)), ("adapter_path", Text("huanngzh/mv-adapter")), ("adapter_name", Text("mvadapter_i2mv_sdxl_beta.safetensors")), ("num_views", Int(6)), ("enable_vae_slicing", Bool(true)), ("enable_vae_tiling", Bool(false)), ("pipeline", Value<NodeId>.Link(1, 0)), ("scheduler", Value<NodeId>.Link(2, 0)), ("autoencoder", Value<NodeId>.Link(3, 0))])
    case 8 => Node<NodeId>.Node("ImagePreprocessor", "Image Preprocessor", [("height", Int(1024)), ("width", Int(1024)), ("remove_bg_fn", Value<NodeId>.Link(9, 0)), ("image", Value<NodeId>.Link(7, 0))])
    case _ => Node<NodeId>.Node("BiRefNet", "BiRefNet", [("ckpt_name", Value<NodeId>.Text("ZhengPeng7/BiRefNet"))])
  }

  function Fixed2(id: NodeId): Node<NodeId> {
    match id
    case 10 => Node<NodeId>.Node("PreviewImage", "이미지 미리보기", [("images", Value<NodeId>.Link(8, 0))])
    case 11 => Node<NodeId>.Node("PreviewImage", "이미지 미리보기", [("images", Value<NodeId>.Link(6, 0))])
    case _ => Node<NodeId>.Node("SaveImage", "이미지 저장", [("filename_prefix", Text("ComfyUI")), ("images", Value<NodeId>.Link(6, 0))])
  }

  /** Node 13, the view selector. */
  const ViewSelector: Node<NodeId> := Node<NodeId>.Node("ViewSelector", "View Selector", [("front_view", Value<NodeId>.Bool(true)), ("front_right_view", Bool(false)), ("right_view", Bool(false)), ("back_view", Bool(true)), ("left_view", Bool(true)), ("front_left_view", Bool(false))])

  function Fixed(id: NodeId): Node<NodeId> {
    if id <= 3 then Fixed0(id) else
    if id <= 9 then Fixed1(id) else
    if id <= 12 then Fixed2(id) else
    ViewSelector
  }

  /** Entry `id` of the returned dictionary. */
  function NodeAt(id: NodeId, referenceFilename: string, userPrompt: string): Node<NodeId> {
    if id == 6 then Node<NodeId>.Node("DiffusersMVSampler", "Diffusers MV Sampler", [("num_views", Int(6)), ("prompt", Text(userPrompt + QualitySuffix)), ("negative_prompt", Text("watermark, ugly, deformed, noisy, blurry, low contrast")), ("width", Int(1024)), ("height", Int(1024)), ("steps", Int(50)), ("cfg", Int(3)), ("seed", Int(21)), ("controlnet_conditioning_scale", Int(1)), ("pipeline", Value<NodeId>.Link(4, 0)), ("reference_image", Value<NodeId>.Link(8, 0)), ("azimuth_degrees", Value<NodeId>.Link(13, 0))])
    else if id == 7 then Node<NodeId>.Node("LoadImage", "이미지 로드", [("image", Value<NodeId>.Text(ComfyOutputDir + referenceFilename))])
    else Fixed(id)
  }

  /** The dictionary returned by
    * `generate_mv_adapter_workflow(reference_image_filename, user_prompt)`. */
  function Build(referenceFilename: string, userPrompt: string): (g: Graph<NodeId>)
    ensures forall id: NodeId :: id in g
  {
    map id: NodeId | id <= 13 :: NodeAt(id, referenceFilename, userPrompt)
  }

  /** Every link names a key of the dictionary: a link's target has type
    * `NodeId`, and every `NodeId` is a key. */
  lemma BuildLinksResolve(referenceFilename: string, userPrompt: string)
    ensures LinksResolve(Build(referenceFilename, userPrompt))
  {
  }

  /** The prompt lands in the sampler, node 6, followed by `, high quality`. */
  lemma PromptSlot(referenceFilename: string, userPrompt: string)
    ensures Input(Build(referenceFilename, userPrompt)[6], "prompt") == Some(Text(userPrompt + QualitySuffix))
  {
    assert Build(referenceFilename, userPrompt)[6] == NodeAt(6, referenceFilename, userPrompt);
    InputAt(NodeAt(6, referenceFilename, userPrompt), 1, "prompt");
  }

  /** The reference image is loaded by node 7 from the server's output folder. */
  lemma ReferenceSlot(referenceFilename: string, userPrompt: string)
    ensures Input(Build(referenceFilename, userPrompt)[7], "image") == Some(Text(ComfyOutputDir + referenceFilename))
  {
  }

  /** The loaded reference image is what the preprocessor, node 8, reads. */
  lemma PreprocessorReadsReference(referenceFilename: string, userPrompt: string)
    ensures Input(Build(referenceFilename, userPrompt)[8], "image") == Some(Link(7, 0))
  {
    assert Build(referenceFilename, userPrompt)[8] == Fixed(8);
    InputAt(Fixed(8), 3, "image");
  }

  /** The preprocessed image is the sampler's reference image. */
  lemma SamplerReadsPreprocessed(referenceFilename: string, userPrompt: string)
    ensures Input(Build(referenceFilename, userPrompt)[6], "reference_image") == Some(Link(8, 0))
  {
    assert Build(referenceFilename, userPrompt)[6] == NodeAt(6, referenceFilename, userPrompt);
    InputAt(NodeAt(6, referenceFilename, userPrompt), 10, "reference_image");
  }

  /** Every node other than 6 and 7 is the same whatever the arguments. */
  lemma OnlySlotNodesVary(id: NodeId, referenceFilename: string, userPrompt: string, otherFilename: string, otherPrompt: string)
    requires id != 6 && id != 7
    ensures Build(referenceFilename, userPrompt)[id] == Build(otherFilename, otherPrompt)[id]
  {
  }

  /** The view selector keeps front, back and left, in that order: the
    * order in which the saved views are renamed afterwards. */
  lemma SelectedViews(referenceFilename: string, userPrompt: string)
    ensures TrueInputs(Build(referenceFilename, userPrompt)[13].inputs) == ["front_view", "back_view", "left_view"]
  {
    assert Build(referenceFilename, userPrompt)[13] == Fixed(13);
    ViewSelectorViews();
  }

  lemma ViewSelectorViews()
    ensures TrueInputs(Fixed(13).inputs) == ["front_view", "back_view", "left_view"]
  {
    var inputs := Fixed(13).inputs;
    assert inputs == [("front_view", Bool(true)), ("front_right_view", Bool(false)), ("right_view", Bool(false)),
                      ("back_view", Bool(true)), ("left_view", Bool(true)), ("front_left_view", Bool(false))];
    assert TrueInputs(inputs[5..]) == [];
    assert TrueInputs(inputs[4..]) == ["left_view"];
    assert TrueInputs(inputs[3..]) == ["back_view", "left_view"];
    assert TrueInputs(inputs[1..]) == ["back_view", "left_view"];
  }

  /** The generated views are saved under the prefix `ComfyUI`. */
  lemma SavePrefix(referenceFilename: string, userPrompt: string)
    ensures Build(referenceFilename, userPrompt)[12].classType == "SaveImage"
    ensures Input(Build(referenceFilename, userPrompt)[12], "filename_prefix") == Some(Text("ComfyUI"))
  {
  }

  /** The reference file name stored in node 7, if the path has the expected form. */
  function ReferenceOf(g: Graph<NodeId>): (r: Option<string>)
    ensures r.Some? ==> 7 in g && Input(g[7], "image") == Some(Text(ComfyOutputDir + r.value))
  {
    if 7 in g then
      match Input(g[7], "image")
      case Some(Text(s)) => StripPrefix(s, ComfyOutputDir)
      case _ => None
    else None
  }

  /** The prompt stored in node 6, if the text has the expected form. */
  function PromptOf(g: Graph<NodeId>): (r: Option<string>)
    ensures r.Some? ==> 6 in g && Input(g[6], "prompt") == Some(Text(r.value + QualitySuffix))
  {
    if 6 in g then
      match Input(g[6], "prompt")
      case Some(Text(s)) => StripSuffix(s, QualitySuffix)
      case _ => None
    else None
  }

  /** Both arguments can be read back from the workflow, so distinct
    * arguments give distinct workflows. */
  lemma ArgumentsRecoverable(referenceFilename: string, userPrompt: string)
    ensures ReferenceOf(Build(referenceFilename, userPrompt)) == Some(referenceFilename)
    ensures PromptOf(Build(referenceFilename, userPrompt)) == Some(userPrompt)
  {
    ReferenceSlot(referenceFilename, userPrompt);
    PromptSlot(referenceFilename, userPrompt);
    StripPrependedPrefix(ComfyOutputDir, referenceFilename);
    StripAppendedSuffix(userPrompt, QualitySuffix);
  }

  lemma BuildInjective(referenceFilename: string, userPrompt: string, otherFilename: string, otherPrompt: string)
    requires Build(referenceFilename, userPrompt) == Build(otherFilename, otherPrompt)
    ensures referenceFilename == otherFilename && userPrompt == otherPrompt
  {
    ArgumentsRecoverable(referenceFilename, userPrompt);
    ArgumentsRecoverable(otherFilename, otherPrompt);
  }
}
