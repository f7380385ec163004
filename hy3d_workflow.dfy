// The image-to-3D workflow built by `generate_hy3d_workflow` (hy3d_api.py):
// Hunyuan3D-2 multi-view mesh generation from a front, a back and a left
// image, followed by delighting, texturing and export. The dictionary keys
// are decimal strings in the source; here they are the numbers they spell.

module Hy3dWorkflow {
  import opened Options
  import opened Workflow

  /** The keys of the dictionary, as numbers. */
  predicate IsNodeId(id: nat) {
    id == 10 || id == 17 || id == 28 || id == 35 || id == 45 || id == 52 || id == 55 || id == 56 ||
    id == 61 || id == 64 || id == 79 || id == 83 || id == 85 || id == 88 || id == 90 || id == 92 ||
    id == 98 || id == 99 || id == 104 || id == 111 || id == 116 || id == 117 || id == 125 || id == 126 ||
    id == 127 || id == 129 || id == 132 || id == 133 || id == 138 || id == 140 || id == 148 || id == 149 ||
    id == 154 || id == 157 || id == 159 || id == 160 || id == 162 || id == 163 || id == 166 || id == 170 ||
    id == 171 || id == 174 || id == 176 || id == 177 || id == 178 || id == 182 || id == 183 || id == 184 ||
    id == 185 || id == 195 || id == 196 || id == 198 || id == 199 || id == 201 || id == 202 || id == 203 ||
    id == 204
  }

  type NodeId = id: nat | IsNodeId(id) witness 10

  // The entries that do not depend on the arguments, in groups of
  // ascending keys.

  function Fixed0(id: NodeId): Node<NodeId> {
    match id
    case 10 => Node<NodeId>.Node("Hy3DModelLoader", "Hy3DModelLoader", [("model", Value<NodeId>.Text("hunyuan3d-dit-v2-0-fp16.safetensors")), ("attention_mode", Text("sdpa")), ("cublas_ops", Bool(false))])
    case 17 => Node<NodeId>.Node("Hy3DExportMesh", "Hy3DExportMesh", [("filename_prefix", Text("3D/Hy3D")), ("file_format", Text("glb")), ("save_file", Bool(true)), ("trimesh", Value<NodeId>.Link(203, 0))])
    case 28 => Node<NodeId>.Node("DownloadAndLoadHy3DDelightModel", "(Down)Load Hy3D DelightModel", [("model", Value<NodeId>.Text("hunyuan3d-delight-v2-0"))])
    case 35 => Node<NodeId>.Node("Hy3DDelightImage", "Hy3DDelightImage", [("steps", Int(50)), ("width", Int(512)), ("height", Int(512)), ("cfg_image", Int(1)), ("seed", Int(0)), ("delight_pipe", Value<NodeId>.Link(28, 0)), ("image", Value<NodeId>.Link(64, 0)), ("scheduler", Value<NodeId>.Link(148, 0))])
    case 45 => Node<NodeId>.Node("PreviewImage", "이미지 미리보기", [("images", Value<NodeId>.Link(35, 0))])
    case 52 => Node<NodeId>.Node("ImageResize+", "🔧 Image Resize", [("width", Int(518)), ("height", Int(518)), ("interpolation", Text("lanczos")), ("method", Text("pad")), ("condition", Text("always")), ("multiple_of", Int(2)), ("image", Value<NodeId>.Link(157, 0))])
    case 55 => Node<NodeId>.Node("TransparentBGSession+", "🔧 InSPyReNet TransparentBG", [("mode", Value<NodeId>.Text("base")), ("use_jit", Bool(true))])
    case _ => Node<NodeId>.Node("ImageRemoveBackground+", "🔧 Image Remove Background", [("rembg_session", Value<NodeId>.Link(55, 0)), ("image", Value<NodeId>.Link(52, 0))])
  }

  function Fixed1(id: NodeId): Node<NodeId> {
    match id
    case 61 => Node<NodeId>.Node("Hy3DCameraConfig", "Hy3D Camera Config", [("camera_azimuths", Value<NodeId>.Text("0, 90, 180, 270, 0, 180")), ("camera_elevations", Text("0, 0, 0, 0, 90, -90")), ("view_weights", Text("1, 0.1, 0.5, 0.1, 0.05, 0.05")), ("camera_distance", Float("1.45")), ("ortho_scale", Float("1.2"))])
    case 64 => Node<NodeId>.Node("ImageCompositeMasked", "마스크된 이미지 합성", [("x", Int(0)), ("y", Int(0)), ("resize_source", Bool(false)), ("destination", Value<NodeId>.Link(184, 0)), ("source", Value<NodeId>.Link(166, 1)), ("mask", Value<NodeId>.Link(166, 2))])
    case 79 => Node<NodeId>.Node("Hy3DRenderMultiView", "Hy3D Render MultiView", [("render_size", Int(1024)), ("texture_size", Int(2048)), ("normal_space", Text("world")), ("trimesh", Value<NodeId>.Link(83, 0)), ("camera_config", Value<NodeId>.Link(61, 0))])
    case 83 => Node<NodeId>.Node("Hy3DMeshUVWrap", "Hy3D Mesh UV Wrap", [("trimesh", Value<NodeId>.Link(203, 0))])
    case 85 => Node<NodeId>.Node("DownloadAndLoadHy3DPaintModel", "(Down)Load Hy3D PaintModel", [("model", Value<NodeId>.Text("hunyuan3d-paint-v2-0"))])
    case 88 => Node<NodeId>.Node("Hy3DSampleMultiView", "Hy3D Sample MultiView", [("view_size", Int(512)), ("steps", Int(25)), ("seed", Int(1024)), ("denoise_strength", Int(1)), ("pipeline", Value<NodeId>.Link(85, 0)), ("ref_image", Value<NodeId>.Link(35, 0)), ("normal_maps", Value<NodeId>.Link(79, 0)), ("position_maps", Value<NodeId>.Link(79, 1)), ("camera_config", Value<NodeId>.Link(61, 0)), ("scheduler", Value<NodeId>.Link(149, 0))])
    case 90 => Node<NodeId>.Node("PreviewImage", "이미지 미리보기", [("images", Value<NodeId>.Link(79, 0))])
    case _ => Node<NodeId>.Node("Hy3DBakeFromMultiview", "Hy3D Bake From Multiview", [("images", Value<NodeId>.Link(117, 0)), ("renderer", Value<NodeId>.Link(79, 2)), ("camera_config", Value<NodeId>.Link(61, 0))])
  }

  function Fixed2(id: NodeId): Node<NodeId> {
    match id
    case 98 => Node<NodeId>.Node("Hy3DApplyTexture", "Hy3D Apply Texture", [("texture", Value<NodeId>.Link(104, 0)), ("renderer", Value<NodeId>.Link(129, 2))])
    case 99 => Node<NodeId>.Node("Hy3DExportMesh", "Hy3DExportMesh", [("filename_prefix", Text("3D/Hy3D_textured")), ("file_format", Text("glb")), ("save_file", Bool(true)), ("trimesh", Value<NodeId>.Link(98, 0))])
    case 104 => Node<NodeId>.Node("CV2InpaintTexture", "CV2 Inpaint Texture", [("inpaint_radius", Int(3)), ("inpaint_method", Text("ns")), ("texture", Value<NodeId>.Link(129, 0)), ("mask", Value<NodeId>.Link(129, 1))])
    case 111 => Node<NodeId>.Node("PreviewImage", "Preview Image: Multiview results", [("images", Value<NodeId>.Link(88, 0))])
    case 116 => Node<NodeId>.Node("PreviewImage", "이미지 미리보기", [("images", Value<NodeId>.Link(79, 1))])
    case 117 => Node<NodeId>.Node("ImageResize+", "🔧 Image Resize", [("width", Int(2048)), ("height", Int(2048)), ("interpolation", Text("lanczos")), ("method", Text("stretch")), ("condition", Text("always")), ("multiple_of", Int(0)), ("image", Value<NodeId>.Link(88, 0))])
    case 125 => Node<NodeId>.Node("PreviewImage", "Preview Image: Initial baked texture", [("images", Value<NodeId>.Link(92, 0))])
    case _ => Node<NodeId>.Node("PreviewImage", "Preview Image: vertex inpainted texture", [("images", Value<NodeId>.Link(129, 0))])
  }

  function Fixed3(id: NodeId): Node<NodeId> {
    match id
    case 127 => Node<NodeId>.Node("PreviewImage", "Preview Image: fully inpainted texture", [("images", Value<NodeId>.Link(104, 0))])
    case 129 => Node<NodeId>.Node("Hy3DMeshVerticeInpaintTexture", "Hy3D Mesh Vertice Inpaint Texture", [("texture", Value<NodeId>.Link(92, 0)), ("mask", Value<NodeId>.Link(92, 1)), ("renderer", Value<NodeId>.Link(92, 2))])
    case 132 => Node<NodeId>.Node("SolidMask", "단색 마스크", [("value", Value<NodeId>.Float("0.8")), ("width", Int(512)), ("height", Int(512))])
    case 133 => Node<NodeId>.Node("MaskToImage", "마스크를 이미지로 변환", [("mask", Value<NodeId>.Link(132, 0))])
    case 138 => Node<NodeId>.Node("MaskPreview+", "🔧 Mask Preview", [("mask", Value<NodeId>.Link(56, 1))])
    case 140 => Node<NodeId>.Node("Hy3DVAEDecode", "Hy3D VAE Decode", [("box_v", Float("1.01")), ("octree_resolution", Int(256)), ("num_chunks", Int(32000)), ("mc_level", Int(0)), ("mc_algo", Text("mc")), ("enable_flash_vdm", Bool(true)), ("force_offload", Bool(true)), ("vae", Value<NodeId>.Link(10, 1)), ("latents", Value<NodeId>.Link(166, 0))])
    case 148 => Node<NodeId>.Node("Hy3DDiffusersSchedulerConfig", "Hy3D Diffusers Scheduler Config", [("scheduler", Text("Euler A")), ("sigmas", Text("default")), ("pipeline", Value<NodeId>.Link(28, 0))])
    case _ => Node<NodeId>.Node("Hy3DDiffusersSchedulerConfig", "Hy3D Diffusers Scheduler Config", [("scheduler", Text("DPM++")), ("sigmas", Text("default")), ("pipeline", Value<NodeId>.Link(85, 0))])
  }

  function Fixed4(id: NodeId): Node<NodeId> {
    match id
    case 154 => Node<NodeId>.Node("Preview3D", "3D 미리보기", [("model_file", Value<NodeId>.Link(99, 0)), ("image", Text(""))])
    case 162 => Node<NodeId>.Node("Preview3D", "3D 미리보기", [("model_file", Value<NodeId>.Link(17, 0)), ("image", Text(""))])
    case 163 => Node<NodeId>.Node("Hy3DRenderSingleView", "Hy3D Render SingleView", [("render_type", Text("normal")), ("render_size", Int(1024)), ("camera_type", Text("orth")), ("camera_distance", Float("1.45")), ("pan_x", Int(0)), ("pan_y", Int(0)), ("ortho_scale", Float("1.2")), ("azimuth", Float("146.666748046875")), ("elevation", Int(0)), ("bg_color", Text("128, 128, 255")), ("trimesh", Value<NodeId>.Link(203, 0))])
    case 166 => Node<NodeId>.Node("Hy3DGenerateMeshMultiView", "Hy3DGenerateMeshMultiView", [("guidance_scale", Float("5.5")), ("steps", Int(30)), ("seed", Int(416935455784444)), ("scheduler", Text("FlowMatchEulerDiscreteScheduler")), ("pipeline", Value<NodeId>.Link(10, 0)), ("front", Value<NodeId>.Link(195, 0)), ("left", Value<NodeId>.Link(196, 0)), ("back", Value<NodeId>.Link(198, 0))])
    case 170 => Node<NodeId>.Node("ImageRemoveBackground+", "🔧 Image Remove Background", [("rembg_session", Value<NodeId>.Link(55, 0)), ("image", Value<NodeId>.Link(171, 0))])
    case 171 => Node<NodeId>.Node("ImageResize+", "🔧 Image Resize", [("width", Int(518)), ("height", Int(518)), ("interpolation", Text("lanczos")), ("method", Text("pad")), ("condition", Text("always")), ("multiple_of", Int(2)), ("image", Value<NodeId>.Link(160, 0))])
    case 174 => Node<NodeId>.Node("MaskPreview+", "🔧 Mask Preview", [("mask", Value<NodeId>.Link(170, 1))])
    case _ => Node<NodeId>.Node("ImageResize+", "🔧 Image Resize", [("width", Int(518)), ("height", Int(518)), ("interpolation", Text("lanczos")), ("method", Text("pad")), ("condition", Text("always")), ("multiple_of", Int(2)), ("image", Value<NodeId>.Link(159, 0))])
  }

  function Fixed5(id: NodeId): Node<NodeId> {
    match id
    case 177 => Node<NodeId>.Node("ImageRemoveBackground+", "🔧 Image Remove Background", [("rembg_session", Value<NodeId>.Link(55, 0)), ("image", Value<NodeId>.Link(176, 0))])
    case 178 => Node<NodeId>.Node("MaskPreview+", "🔧 Mask Preview", [("mask", Value<NodeId>.Link(177, 1))])
    case 182 => Node<NodeId>.Node("PreviewImage", "이미지 미리보기", [("images", Value<NodeId>.Link(166, 1))])
    case 183 => Node<NodeId>.Node("MaskPreview+", "🔧 Mask Preview", [("mask", Value<NodeId>.Link(166, 2))])
    case 184 => Node<NodeId>.Node("RepeatImageBatch", "이미지 반복 배치 생성", [("amount", Value<NodeId>.Link(185, 0)), ("image", Value<NodeId>.Link(133, 0))])
    case 185 => Node<NodeId>.Node("BatchCount+", "🔧 Batch Count", [("batch", Value<NodeId>.Link(166, 1))])
    case 195 => Node<NodeId>.Node("JoinImageWithAlpha", "알파와 함께 이미지 결합", [("image", Value<NodeId>.Link(52, 0)), ("alpha", Value<NodeId>.Link(202, 0))])
    case _ => Node<NodeId>.Node("JoinImageWithAlpha", "알파와 함께 이미지 결합", [("image", Value<NodeId>.Link(171, 0)), ("alpha", Value<NodeId>.Link(199, 0))])
  }

  function Fixed6(id: NodeId): Node<NodeId> {
    match id
    case 198 => Node<NodeId>.Node("JoinImageWithAlpha", "알파와 함께 이미지 결합", [("image", Value<NodeId>.Link(176, 0)), ("alpha", Value<NodeId>.Link(201, 0))])
    case 199 => Node<NodeId>.Node("InvertMask", "마스크 반전", [("mask", Value<NodeId>.Link(170, 1))])
    case 201 => Node<NodeId>.Node("InvertMask", "마스크 반전", [("mask", Value<NodeId>.Link(177, 1))])
    case 202 => Node<NodeId>.Node("InvertMask", "마스크 반전", [("mask", Value<NodeId>.Link(56, 1))])
    case 203 => Node<NodeId>.Node("Hy3DPostprocessMesh", "Hy3D Postprocess Mesh", [("remove_floaters", Bool(true)), ("remove_degenerate_faces", Bool(true)), ("reduce_faces", Bool(true)), ("max_facenum", Int(50000)), ("smooth_normals", Bool(false)), ("trimesh", Value<NodeId>.Link(140, 0))])
    case _ => Node<NodeId>.Node("SaveGLB_motorway_edition", "SaveGLB_motorway_edition", [("INPUT_mesh_key", Value<NodeId>.Link(99, 0)), ("filename_prefix", Text("mesh/ComfyUI"))])
  }

  function Fixed(id: NodeId): Node<NodeId> {
    if id <= 56 then Fixed0(id) else
    if id <= 92 then Fixed1(id) else
    if id <= 126 then Fixed2(id) else
    if id <= 149 then Fixed3(id) else
    if id <= 176 then Fixed4(id) else
    if id <= 196 then Fixed5(id) else
    Fixed6(id)
  }

  /** Entry `id` of the returned dictionary. */
  function NodeAt(id: NodeId, frontImg: string, backImg: string, leftImg: string): Node<NodeId> {
    if id == 157 then LoadImage<NodeId>("Load Image: Front", frontImg)
    else if id == 159 then LoadImage<NodeId>("Load Image: Back", backImg)
    else if id == 160 then LoadImage<NodeId>("Load Image: Left", leftImg)
    else Fixed(id)
  }

  /** The dictionary returned by `generate_hy3d_workflow(front_img, back_img, left_img)`. */
  function Build(frontImg: string, backImg: string, leftImg: string): (g: Graph<NodeId>)
    ensures forall id: NodeId :: id in g
  {
    map id: NodeId | id <= 204 :: NodeAt(id, frontImg, backImg, leftImg)
  }

  /** Every link names a key of the dictionary: a link's target has type
    * `NodeId`, and every `NodeId` is a key. */
  lemma BuildLinksResolve(frontImg: string, backImg: string, leftImg: string)
    ensures LinksResolve(Build(frontImg, backImg, leftImg))
  {
  }

  /** The front image is loaded by node 157. */
  lemma FrontSlot(frontImg: string, backImg: string, leftImg: string)
    ensures Build(frontImg, backImg, leftImg)[157].classType == "LoadImage"
    ensures Input(Build(frontImg, backImg, leftImg)[157], "image") == Some(Text(frontImg))
  {
  }

  /** The back image is loaded by node 159. */
  lemma BackSlot(frontImg: string, backImg: string, leftImg: string)
    ensures Build(frontImg, backImg, leftImg)[159].classType == "LoadImage"
    ensures Input(Build(frontImg, backImg, leftImg)[159], "image") == Some(Text(backImg))
  {
  }

  /** The left image is loaded by node 160. */
  lemma LeftSlot(frontImg: string, backImg: string, leftImg: string)
    ensures Build(frontImg, backImg, leftImg)[160].classType == "LoadImage"
    ensures Input(Build(frontImg, backImg, leftImg)[160], "image") == Some(Text(leftImg))
  {
  }

  /** Every node other than the three image loaders is the same whatever
    * the arguments. */
  lemma OnlyImageNodesVary(id: NodeId, frontImg: string, backImg: string, leftImg: string,
                           otherFront: string, otherBack: string, otherLeft: string)
    requires id != 157 && id != 159 && id != 160
    ensures Build(frontImg, backImg, leftImg)[id] == Build(otherFront, otherBack, otherLeft)[id]
  {
  }

  /** The textured mesh is exported as GLB under the prefix `3D/Hy3D_textured`. */
  lemma TexturedExportPrefix(frontImg: string, backImg: string, leftImg: string)
    ensures Build(frontImg, backImg, leftImg)[99].classType == "Hy3DExportMesh"
    ensures Input(Build(frontImg, backImg, leftImg)[99], "filename_prefix") == Some(Text("3D/Hy3D_textured"))
  {
  }

  lemma TexturedExportFormat(frontImg: string, backImg: string, leftImg: string)
    ensures Input(Build(frontImg, backImg, leftImg)[99], "file_format") == Some(Text("glb"))
  {
    assert Build(frontImg, backImg, leftImg)[99] == Fixed(99);
    InputAt(Fixed(99), 1, "file_format");
  }

  /** The file name loaded by node `id`, if it is an image loader. */
  function ImageOf(g: Graph<NodeId>, id: NodeId): (r: Option<string>)
    ensures r.Some? ==> id in g && Input(g[id], "image") == Some(Text(r.value))
  {
    if id in g then
      match Input(g[id], "image")
      case Some(Text(s)) => Some(s)
      case _ => None
    else None
  }

  /** The three arguments can be read back from the workflow, so distinct
    * arguments give distinct workflows. */
  lemma ArgumentsRecoverable(frontImg: string, backImg: string, leftImg: string)
    ensures ImageOf(Build(frontImg, backImg, leftImg), 157) == Some(frontImg)
    ensures ImageOf(Build(frontImg, backImg, leftImg), 159) == Some(backImg)
    ensures ImageOf(Build(frontImg, backImg, leftImg), 160) == Some(leftImg)
  {
    FrontSlot(frontImg, backImg, leftImg);
    BackSlot(frontImg, backImg, leftImg);
    LeftSlot(frontImg, backImg, leftImg);
  }

  lemma BuildInjective(frontImg: string, backImg: string, leftImg: string,
                       otherFront: string, otherBack: string, otherLeft: string)
    requires Build(frontImg, backImg, leftImg) == Build(otherFront, otherBack, otherLeft)
    ensures frontImg == otherFront && backImg == otherBack && leftImg == otherLeft
  {
    ArgumentsRecoverable(frontImg, backImg, leftImg);
    ArgumentsRecoverable(otherFront, otherBack, otherLeft);
  }
}
