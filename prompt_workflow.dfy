// The text-to-image workflow built by `generate_prompt_text`
// (comfy_mv_api.py): a checkpoint loader, two text encoders, a sampler,
// a decoder, background removal and a save node. The dictionary keys
// are decimal strings in the source; here they are the numbers they spell.

module PromptWorkflow {
  import opened Options
  import opened Strings
  import opened Workflow

  /** Style words appended to the user's prompt. */
  const PositiveSuffix: string := ", ctv, no humans, stylized, shiny surface, masterpiece, best quality, ultra-detailed, genshin impact style, fantasy style illustration, still life, solo, simple background, cel shading, anime rendering\n"

  /** Defects appended to the user's negative prompt. */
  const NegativeSuffix: string := ", low quality, distorted tip, melted shape, blurry, broken parts, watercolor, extra leaf, human, text, doll, face, jack-o-lantern, carved, halloween, face, glowing from inside, spooky, scary\n"

  /** The keys of the dictionary, as numbers. */
  predicate IsNodeId(id: nat) {
    id == 3 || id == 4 || id == 5 || id == 6 || id == 7 || id == 8 || id == 9 || id == 12 ||
    id == 13
  }

  type NodeId = id: nat | IsNodeId(id) witness 3

  /** The entries that do not depend on the arguments. */
  function Fixed(id: NodeId): Node<NodeId> {
    match id
    case 3 => Node<NodeId>.Node("KSampler", "KSampler", [("seed", Int(337089376345)), ("steps", Int(20)), ("cfg", Int(7)), ("sampler_name", Text("dpmpp_2m")), ("scheduler", Text("karras")), ("denoise", Int(1)), ("model", Value<NodeId>.Link(4, 0)), ("positive", Value<NodeId>.Link(6, 0)), ("negative", Value<NodeId>.Link(7, 0)), ("latent_image", Value<NodeId>.Link(5, 0))])
    case 4 => Node<NodeId>.Node("CheckpointLoaderSimple", "Load Checkpoint", [("ckpt_name", Value<NodeId>.Text("AnythingXL_xl.safetensors"))])
    case 5 => Node<NodeId>.Node("EmptyLatentImage", "Empty Latent Image", [("width", Value<NodeId>.Int(1024)), ("height", Int(1024)), ("batch_size", Int(1))])
    case 8 => Node<NodeId>.Node("VAEDecode", "VAE Decode", [("samples", Value<NodeId>.Link(3, 0)), ("vae", Value<NodeId>.Link(4, 2))])
    case 9 => Node<NodeId>.Node("SaveImage", "Save Image", [("filename_prefix", Text("ComfyUI")), ("images", Value<NodeId>.Link(12, 0))])
    case 12 => Node<NodeId>.Node("Image Remove Background (rembg)", "Image Remove Background (rembg)", [("image", Value<NodeId>.Link(13, 0))])
    case _ => Node<NodeId>.Node("AILab_ImagePreview", "이미지 미리보기 (RMBG)", [("image", Value<NodeId>.Link(8, 0))])
  }

  /** Entry `id` of the returned dictionary. */
  function NodeAt(id: NodeId, userPrompt: string, userNegative: string): Node<NodeId> {
    if id == 6 then Node<NodeId>.Node("CLIPTextEncode", "CLIP Text Encode (Prompt)", [("text", Text(userPrompt + PositiveSuffix)), ("clip", Value<NodeId>.Link(4, 1))])
    else if id == 7 then Node<NodeId>.Node("CLIPTextEncode", "CLIP Text Encode (Prompt)", [("text", Text(userNegative + NegativeSuffix)), ("clip", Value<NodeId>.Link(4, 1))])
    else Fixed(id)
  }

  /** The dictionary returned by `generate_prompt_text(user_prompt, user_negative)`. */
  function Build(userPrompt: string, userNegative: string): (g: Graph<NodeId>)
    ensures forall id: NodeId :: id in g
  {
    map id: NodeId | id <= 13 :: NodeAt(id, userPrompt, userNegative)
  }

  /** Every link names a key of the dictionary: a link's target has type
    * `NodeId`, and every `NodeId` is a key. */
  lemma BuildLinksResolve(userPrompt: string, userNegative: string)
    ensures LinksResolve(Build(userPrompt, userNegative))
  {
  }

  /** The prompt lands in node 6, followed by the style words. */
  lemma PromptSlot(userPrompt: string, userNegative: string)
    ensures Input(Build(userPrompt, userNegative)[6], "text") == Some(Text(userPrompt + PositiveSuffix))
  {
  }

  /** The negative prompt lands in node 7, followed by the defect words. */
  lemma NegativeSlot(userPrompt: string, userNegative: string)
    ensures Input(Build(userPrompt, userNegative)[7], "text") == Some(Text(userNegative + NegativeSuffix))
  {
  }

  /** Node 6 is the sampler's positive conditioning. */
  lemma PositiveConditioning(userPrompt: string, userNegative: string)
    ensures Input(Build(userPrompt, userNegative)[3], "positive") == Some(Link(6, 0))
  {
    assert Build(userPrompt, userNegative)[3] == Fixed(3);
    InputAt(Fixed(3), 7, "positive");
  }

  /** Node 7 is the sampler's negative conditioning. */
  lemma NegativeConditioning(userPrompt: string, userNegative: string)
    ensures Input(Build(userPrompt, userNegative)[3], "negative") == Some(Link(7, 0))
  {
    assert Build(userPrompt, userNegative)[3] == Fixed(3);
    InputAt(Fixed(3), 8, "negative");
  }

  /** Every node other than 6 and 7 is the same whatever the arguments. */
  lemma OnlyTextNodesVary(id: NodeId, userPrompt: string, userNegative: string, otherPrompt: string, otherNegative: string)
    requires id != 6 && id != 7
    ensures Build(userPrompt, userNegative)[id] == Build(otherPrompt, otherNegative)[id]
  {
  }

  /** The images are saved under the prefix `ComfyUI`. */
  lemma SavePrefix(userPrompt: string, userNegative: string)
    ensures Build(userPrompt, userNegative)[9].classType == "SaveImage"
    ensures Input(Build(userPrompt, userNegative)[9], "filename_prefix") == Some(Text("ComfyUI"))
  {
    assert Build(userPrompt, userNegative)[9] == Fixed(9);
  }

  /** The text stored in node `id` with `suffix` cut off, if it has that form. */
  function TextBefore(g: Graph<NodeId>, id: NodeId, suffix: string): (r: Option<string>)
    ensures r.Some? ==> id in g && Input(g[id], "text") == Some(Text(r.value + suffix))
  {
    if id in g then
      match Input(g[id], "text")
      case Some(Text(s)) => StripSuffix(s, suffix)
      case _ => None
    else None
  }

  /** Both arguments can be read back from the workflow, so distinct
    * arguments give distinct workflows. */
  lemma ArgumentsRecoverable(userPrompt: string, userNegative: string)
    ensures TextBefore(Build(userPrompt, userNegative), 6, PositiveSuffix) == Some(userPrompt)
    ensures TextBefore(Build(userPrompt, userNegative), 7, NegativeSuffix) == Some(userNegative)
  {
    PromptSlot(userPrompt, userNegative);
    NegativeSlot(userPrompt, userNegative);
    StripAppendedSuffix(userPrompt, PositiveSuffix);
    StripAppendedSuffix(userNegative, NegativeSuffix);
  }

  lemma BuildInjective(userPrompt: string, userNegative: string, otherPrompt: string, otherNegative: string)
    requires Build(userPrompt, userNegative) == Build(otherPrompt, otherNegative)
    ensures userPrompt == otherPrompt && userNegative == otherNegative
  {
    ArgumentsRecoverable(userPrompt, userNegative);
    ArgumentsRecoverable(otherPrompt, otherNegative);
  }
}
