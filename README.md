# zen3d core, modelled in Dafny

This project models five parts of the zen3d WebGL engine and proves properties of each.

- **The texture and render-target binder** (`WebGLTexture`).
  - It keeps a side table from every texture and render target to its native handles and the version last uploaded.
  - It decides when a texture is uploaded again, and when the legacy (WebGL 1) tier forces the non-power-of-two fallback.
  - It decides which mip levels are uploaded and when mipmaps are generated.
  - It builds framebuffers: colour attachments become draw buffers, and a depth renderbuffer is made only when no depth texture is attached.
  - It tracks the current render target.
- **One frame of the forward renderer** (`Renderer.render`): a fixed, flag-driven order of calls. The shadow request is consumed by the frame.
- **`Skeleton`**:
  - the bind pose;
  - the flat skinning buffer, sixteen entries per bone;
  - the single version bump of the bone texture;
  - the first-match name search.
- **`Color3` and `Plane`**: small value types over exact reals.

How the model is built:

- Every graphics call is an event appended to a log (`GL.Cmd`), and objects are integer ids.
- The `properties` side table is a `map` whose missing entries read as the empty record.
- The classes keep the source's mutable state: `WebGLTexture`, `Renderer`, `Skeleton`, `Color3`, `Plane` and `Vector3`.
- Their methods are proved against pure functions:
  - `TextureRules` holds the texture rules;
  - `Renderers.FrameEvents` holds the frame sequence;
  - `Colors.HslToRgb` and `Colors.HexComponents` hold the colour conversions.
  - The properties the source promises are lemmas about those functions.

Files:

- `wrappers.dfy`: `Option`.
- `gl.dfy`: enums, the command log, images, records and capabilities.
- `texture_rules.dfy`: the pure decisions of `WebGLTexture.js`.
- `webgl_texture.dfy`: the binder class.
- `renderer.dfy`, `skeleton.dfy`, `color3.dfy`, `plane.dfy`.

## Model

| member | source | states |
|---|---|---|
| TextureRules.PowerOfTwoHasExponent | src/core/render/WebGL/WebGLTexture.js:19-21 | a size that passes the power-of-two test is 2^k for some k |
| TextureRules.ExponentGivesPowerOfTwo | src/core/render/WebGL/WebGLTexture.js:19-21 | every 2^k passes the power-of-two test |
| TextureRules.IsPowerOfTwoExact | src/core/render/WebGL/WebGLTexture.js:19-21 | the test holds exactly for the powers of two |
| TextureRules.TextureNeedsPowerOfTwo | src/core/render/WebGL/WebGLTexture.js:4-9 | a texture needs power-of-two sizes unless both wraps clamp to edge and the minifying filter is NEAREST or LINEAR (both directions) |
| TextureRules.FilterFallback | src/core/render/WebGL/WebGLTexture.js:11-17 | the fallback filter is NEAREST exactly for the three nearest-family filters and LINEAR for every other filter |
| TextureRules.GetTextureParameters | src/core/render/WebGL/WebGLTexture.js:69-98 | without fallback the texture's own sampling is kept; with fallback both wraps clamp to edge, both filters are replaced by their fallbacks and anisotropy is kept |
| TextureRules.FallbackIsPowerOfTwoFree | src/core/render/WebGL/WebGLTexture.js:4-17 | the fallback parameters never need power-of-two sizes themselves |
| TextureRules.FallbackIdempotent | src/core/render/WebGL/WebGLTexture.js:69-98 | applying the fallback twice gives the same parameters as once |
| TextureRules.FallbackKeepsCompatibleSampling | src/core/render/WebGL/WebGLTexture.js:69-98 | sampling that is already legacy-compatible is left unchanged by the fallback |
| TextureRules.ClampToMaxSize | src/core/render/WebGL/WebGLTexture.js:42-67 | an image within the maximum size is returned as is, and the element flag is kept |
| TextureRules.ScaledSideFits | src/core/render/WebGL/WebGLTexture.js:52-56 | a side scaled by maxSize / max(w, h) is at most maxSize, and the longer side becomes exactly maxSize |
| TextureRules.ClampedImageFits | src/core/render/WebGL/WebGLTexture.js:42-67 | an oversized image is scaled to fit: both sides at most maxSize, the longer one equal to it, and each side is the floor of side × maxSize / max(w, h) |
| TextureRules.MakePowerOf2 | src/core/render/WebGL/WebGLTexture.js:23-40 | an element image is resized to nearestPowerOfTwo of each side; any other image is returned unchanged |
| TextureRules.ResizeAvoidsFallback | src/core/render/WebGL/WebGLTexture.js:138-146 | when the texture needs power-of-two sizes, the resized element image never triggers the fallback (given that nearestPowerOfTwo returns powers of two) |
| TextureRules.CompatibleImageKeptAsIs | src/core/render/WebGL/WebGLTexture.js:138-149 | with legacy-compatible sampling an image within the maximum size is uploaded at its own size, and the parameters are the texture's own even on the legacy tier |
| TextureRules.IsColorAttachmentExact | src/core/render/WebGL/WebGLTexture.js:410-412 | the corrected draw-buffer test accepts exactly COLOR_ATTACHMENT0..COLOR_ATTACHMENT15 |
| TextureRules.DrawBufferCandidateAsWrittenDiffers | src/core/render/WebGL/WebGLTexture.js:410 | the range test as written rejects COLOR_ATTACHMENT10 (0x8CEA) and accepts 0x8CE10, which is not an attachment point |
| TextureRules.DrawBufferListAsWritten | src/core/render/WebGL/WebGLTexture.js:395-413 | as written, every point in the draw-buffer list is an attachment point of the target that passes the range test |
| TextureRules.DrawBufferListAsWrittenSnoc | src/core/render/WebGL/WebGLTexture.js:410-412 | one more attachment adds itself to the list as written exactly when it passes the range test of line 410 |
| TextureRules.DrawBufferListAsWrittenMembers | src/core/render/WebGL/WebGLTexture.js:395-413 | a point is in the list as written exactly when it is attached and passes the range test, both directions |
| TextureRules.DrawBufferListAsWrittenIncreasing | src/core/render/WebGL/WebGLTexture.js:396-413 | attachments visited in ascending order give a strictly ascending list as written |
| TextureRules.EleventhAttachmentNotDrawn | src/core/render/WebGL/WebGLTexture.js:395-413 | for a target with COLOR_ATTACHMENT0 and COLOR_ATTACHMENT10, the list as written names only the first; the corrected list names both |
| TextureRules.AsWrittenAgreesOnFirstTen | src/core/render/WebGL/WebGLTexture.js:410 | a target that does not use COLOR_ATTACHMENT10..15 or 0x8CE10..0x8CE15 gets the same draw buffers either way |
| TextureRules.DrawBufferList | src/core/render/WebGL/WebGLTexture.js:395-413 | the draw-buffer list is never longer than the attachment list |
| TextureRules.DrawBufferListSnoc | src/core/render/WebGL/WebGLTexture.js:410-412 | one more attachment adds itself to the list exactly when it is a colour attachment point |
| TextureRules.DrawBufferListMembers | src/core/render/WebGL/WebGLTexture.js:395-413 | a point is in the draw-buffer list exactly when it is attached and is a colour attachment point |
| TextureRules.DrawBufferListIncreasing | src/core/render/WebGL/WebGLTexture.js:396-413 | attachments are visited in ascending order, so the draw-buffer list is strictly ascending |
| TextureRules.ThreeColorAttachments | src/core/render/WebGL/WebGLTexture.js:395-413 | three colour attachments give the draw buffers COLOR_ATTACHMENT0, 1, 2 |
| TextureRules.EffectivePixelType | src/core/render/WebGL/WebGLTexture.js:180-184 | on WebGL 2 HALF_FLOAT is uploaded as the WebGL 2 half-float enum; every other type is unchanged |
| TextureRules.ParameterCmds | src/core/render/WebGL/WebGLTexture.js:335-379 | four parameter calls, plus a fifth anisotropy call when the extension exists, whose value never exceeds the capability maximum |
| TextureRules.LevelUploads | src/core/render/WebGL/WebGLTexture.js:187-206 | one upload per mipmap, all to the same target |
| TextureRules.LevelUploadsInOrder | src/core/render/WebGL/WebGLTexture.js:189-204 | the mipmaps are uploaded as levels 0, 1, …, n-1 in that order |
| TextureRules.UploadedLevels2D | src/core/render/WebGL/WebGLTexture.js:186-210 | with a non-empty mipmap list and no fallback, levels 0..n-1 are uploaded; otherwise exactly level 0 |
| TextureRules.FaceUploads | src/core/render/WebGL/WebGLTexture.js:309-318 | face i is uploaded to TEXTURE_CUBE_MAP_POSITIVE_X + i at level 0 with its own size, for all six faces |
| TextureRules.PreparedImages | src/core/render/WebGL/WebGLTexture.js:286-304 | every face is clamped and resized by the same rule as a 2D image |
| TextureRules.DepthStorage | src/core/render/WebGL/WebGLTexture.js:432-438 | the renderbuffer is attached at DEPTH_STENCIL exactly when a stencil buffer is wanted |
| TextureRules.DrawBufferCmds | src/core/render/WebGL/WebGLTexture.js:415-421 | draw buffers are set only for more than one buffer: natively on WebGL 2, through WEBGL_draw_buffers on WebGL 1, and not at all without the extension |
| TextureRules.RegeneratedMipmapsNeedNoFallback | src/core/render/WebGL/WebGLTexture.js:527-544 | a target whose mipmaps are regenerated has power-of-two sides, so it never triggers the fallback, and its filter is a mipmapping one |
| WebGLTextures.WebGLTexture.constructor | src/core/render/WebGL/WebGLTexture.js:100-110 | an empty side table, no current render target and no calls yet |
| WebGLTextures.WebGLTexture.SetTextureParameters | src/core/render/WebGL/WebGLTexture.js:335-379 | issues the parameter calls for the texture's sampling after the fallback rule |
| WebGLTextures.WebGLTexture.Upload2D | src/core/render/WebGL/WebGLTexture.js:186-214 | uploads the mipmap list or level 0, clears generateMipmaps exactly when the list was used, and generates mipmaps only when still wanted and there is no fallback |
| WebGLTextures.WebGLTexture.Issue2DUpload | src/core/render/WebGL/WebGLTexture.js:132-214 | the upload calls of setTexture2D, in order: unit, bind, flip, parameters, levels, mipmap generation; the fallback is decided on the prepared image |
| WebGLTextures.WebGLTexture.Upload2DPath | src/core/render/WebGL/WebGLTexture.js:125-218 | the upload path: a handle is created only if none is recorded, the calls are issued in order and the uploaded version is recorded |
| WebGLTextures.WebGLTexture.SetTexture2D | src/core/render/WebGL/WebGLTexture.js:114-225 | on the short path (no image, an rtt image given a slot, or an unchanged version) only unit and bind are issued and nothing else changes; otherwise the upload path runs; afterwards the texture is never stale |
| WebGLTextures.WebGLTexture.Uploaded2DTextureCmds | src/core/render/WebGL/WebGLTexture.js:125-218 | the upload path of setTexture2D issues texture calls only |
| WebGLTextures.WebGLTexture.PrepareCubeFaces | src/core/render/WebGL/WebGLTexture.js:284-304 | the six prepared faces, and a fallback that is the OR of the per-face tests |
| WebGLTextures.WebGLTexture.UploadCube | src/core/render/WebGL/WebGLTexture.js:309-322 | uploads the six faces in order, then generates mipmaps only when wanted and there is no fallback |
| WebGLTextures.WebGLTexture.IssueCubeUpload | src/core/render/WebGL/WebGLTexture.js:245-322 | the upload calls of setTextureCube, in order, with one fallback decision and one parameter set for all faces |
| WebGLTextures.WebGLTexture.UploadCubePath | src/core/render/WebGL/WebGLTexture.js:238-326 | the cube upload path: a handle is created only if none is recorded, and the uploaded version is recorded |
| WebGLTextures.WebGLTexture.SetTextureCube | src/core/render/WebGL/WebGLTexture.js:227-333 | on the short path only unit and bind are issued and nothing else changes; otherwise the upload path runs; afterwards the cube is never stale |
| WebGLTextures.WebGLTexture.UploadedCubeTextureCmds | src/core/render/WebGL/WebGLTexture.js:238-326 | the upload path of setTextureCube issues texture calls only |
| WebGLTextures.WebGLTexture.CreateFramebufferFor | src/core/render/WebGL/WebGLTexture.js:391-393 | a fresh framebuffer is recorded for the target and bound |
| WebGLTextures.WebGLTexture.CreateDepthbuffer | src/core/render/WebGL/WebGLTexture.js:426-440 | a fresh renderbuffer is recorded for the target, sized and attached by the stencil rule |
| WebGLTextures.WebGLTexture.BindForAttachment | src/core/render/WebGL/WebGLTexture.js:397 | binding an attachment's texture changes only that texture's record, keeps every handle, leaves it up to date and issues only texture calls |
| WebGLTextures.WebGLTexture.AttachTexture | src/core/render/WebGL/WebGLTexture.js:397-408 | one loop step: exactly one attachment call, at the given point, with the texture's handle |
| WebGLTextures.DrawBufferCallAgrees | src/core/render/WebGL/WebGLTexture.js:410-421 | for a target with no point in COLOR_ATTACHMENT10..15 or 0x8CE10..0x8CE15, the draw-buffer call the binder makes equals the one of the corrected list |
| WebGLTextures.DrawBufferListStep | src/core/render/WebGL/WebGLTexture.js:396-412 | one more attachment extends the list as written by its point exactly when the point passes the range test |
| WebGLTextures.WebGLTexture.AttachOne | src/core/render/WebGL/WebGLTexture.js:396-409 | one step of the attachment loop, before the range test, keeps its invariant: the attachments made so far, in order, at their points with their textures' handles, and no other record changed |
| WebGLTextures.WebGLTexture.AttachTextures | src/core/render/WebGL/WebGLTexture.js:395-413 | after the loop every attachment point is attached, in order, to its texture's handle, and the draw-buffer list holds the points that pass the range test of line 410 as written |
| WebGLTextures.WebGLTexture.FinishFramebuffer2D | src/core/render/WebGL/WebGLTexture.js:415-445 | the draw-buffer call, then a depth renderbuffer only when one is needed, then the status check |
| WebGLTextures.WebGLTexture.OpenAndAttach2D | src/core/render/WebGL/WebGLTexture.js:388-413 | a new framebuffer for the target, then every attachment, changing no record except those of the target and its textures; the returned draw-buffer list is the one of the range test as written |
| WebGLTextures.WebGLTexture.BuildFramebuffer2D | src/core/render/WebGL/WebGLTexture.js:388-460 | the whole creation path of a 2D target: framebuffer, attachments, the draw-buffer call for the list as written, optional depth renderbuffer, status check |
| WebGLTextures.WebGLTexture.SetRenderTarget2D | src/core/render/WebGL/WebGLTexture.js:381-464 | a target with a framebuffer is only rebound; one without gets the creation path; either way a framebuffer is recorded afterwards, and the draw-buffer list is strictly ascending |
| WebGLTextures.WebGLTexture.BindCubeForTarget | src/core/render/WebGL/WebGLTexture.js:480 | binding the cube texture changes only its record, leaves it up to date and issues only texture calls |
| WebGLTextures.WebGLTexture.BuildFramebufferCube | src/core/render/WebGL/WebGLTexture.js:473-519 | the creation path of a cube target: a new framebuffer, the cube upload, the active face attached at COLOR_ATTACHMENT0, the cube unbound, a depth renderbuffer when wanted, the status check |
| WebGLTextures.WebGLTexture.SetRenderTargetCube | src/core/render/WebGL/WebGLTexture.js:466-525 | when the texture and framebuffer both exist, only rebind and reattach the active face; otherwise the creation path runs and its calls and records are stated in full |
| WebGLTextures.WebGLTexture.SetRenderTarget | src/core/render/WebGL/WebGLTexture.js:578-610 | a back target binds the default framebuffer only when it is not current; a current cube target only reattaches its active face; a current 2D target issues nothing; a target that is not current gets the full 2D or cube path (rebind, or reattach the face, or build); the target is current afterwards |
| WebGLTextures.WebGLTexture.UpdateRenderTargetMipmap | src/core/render/WebGL/WebGLTexture.js:527-544 | bind, generate and unbind exactly when mipmaps are wanted, both sides are powers of two and the filter is neither NEAREST nor LINEAR; otherwise nothing |
| WebGLTextures.WebGLTexture.ReleaseTexture | src/core/render/WebGL/WebGLTexture.js:546-558 | deletes the texture handle only when one is recorded, then removes exactly that record |
| WebGLTextures.WebGLTexture.ReleaseRenderTarget | src/core/render/WebGL/WebGLTexture.js:560-576 | deletes the framebuffer and the depth renderbuffer, each only when recorded, then removes exactly that record |
| WebGLTextures.HandlesKeptTransitive | src/core/render/WebGL/WebGLTexture.js:127-130 | "no recorded texture handle is replaced" composes across calls |
| WebGLTextures.AttachedAppend | src/core/render/WebGL/WebGLTexture.js:407 | the attachments of two logs run one after the other are those of the first, then those of the second |
| WebGLTextures.AttachedOfTextureCmds | src/core/render/WebGL/WebGLTexture.js:397 | texture calls attach nothing |
| WebGLTextures.AttachedSoFarStep | src/core/render/WebGL/WebGLTexture.js:396-408 | one attachment step extends the attachments made so far by exactly its point and handle |
| Renderers.ChosenTarget | src/core/render/Renderer.js:84-86 | an omitted render target is replaced by the back render target; a given one is used |
| Renderers.Renderer.constructor | src/core/render/Renderer.js:35-63 | shadowAutoUpdate, matrixAutoUpdate, lightsAutoUpdate and autoClear start true, and shadowNeedsUpdate starts false |
| Renderers.Renderer.Render | src/core/render/Renderer.js:74-98 | a frame appends exactly the frame events for the flags at entry and the chosen target; shadowNeedsUpdate is false afterwards and no other flag changes |
| Renderers.Renderer.Prepare | src/core/render/Renderer.js:75-82 | the preparation calls, with the shadow request consumed |
| Renderers.Renderer.DrawInto | src/core/render/Renderer.js:87-97 | bind, optional clear, draw, optional mipmap update |
| Renderers.FrameOrdered | src/core/render/Renderer.js:74-98 | the calls of a frame occur in the fixed order: matrix, lights, shadow pass, bind target, clear, draw, mipmap |
| Renderers.FrameUpdatesMatrixIff | src/core/render/Renderer.js:75 | the scene's matrices are updated exactly when matrixAutoUpdate is set |
| Renderers.FrameUpdatesLightsIff | src/core/render/Renderer.js:76 | the scene's lights are updated exactly when lightsAutoUpdate is set |
| Renderers.FrameShadowPassIff | src/core/render/Renderer.js:78-82 | the shadow pass runs exactly when shadowAutoUpdate or shadowNeedsUpdate is set |
| Renderers.FrameClearIff | src/core/render/Renderer.js:89-91 | colour, depth and stencil are cleared exactly when autoClear or forceClear is set, and no other clear is issued |
| Renderers.FrameTargetAndMipmap | src/core/render/Renderer.js:84-97 | only the chosen target is bound; its mipmaps are updated exactly when it has a texture, and always right after the draw, which is otherwise the last call |
| Renderers.ShadowRequestConsumedOnce | src/core/render/Renderer.js:78-82 | with automatic shadows off, a requested shadow pass happens in this frame and not in the next |
| Skeletons.WriteMatrix | src/core/animation/armature/Skeleton.js:72 | the sixteen entries land at the offset, and every other slot is unchanged |
| Skeletons.Skeleton.constructor | src/core/animation/armature/Skeleton.js:10-34 | the bones are a copy of the argument (none given: none), the buffer holds sixteen zeros per bone in a new array, and there is no bone texture |
| Skeletons.Skeleton.Pose | src/core/animation/armature/Skeleton.js:42-59 | every world matrix is the inverse of its offset; a bone whose parent is a bone is relative to the parent's new world matrix, any other bone keeps its world matrix; every transform is decomposed from the new local matrix |
| Skeletons.Skeleton.ResetWorldMatrices | src/core/animation/armature/Skeleton.js:43-46 | the first pass sets every world matrix to the inverse of its offset matrix |
| Skeletons.Skeleton.DeriveLocalMatrices | src/core/animation/armature/Skeleton.js:48-58 | the second pass derives each local matrix from the world matrices as they stand after the first pass |
| Skeletons.Skeleton.UpdateBones | src/core/animation/armature/Skeleton.js:68-78 | slot p of the buffer holds entry p mod 16 of the skinning matrix of bone p / 16; the bone texture, if any, is bumped exactly once |
| Skeletons.Skeleton.GetBoneByName | src/core/animation/armature/Skeleton.js:85-94 | the lowest-index bone with the name, or null exactly when no bone has it |
| Colors.ToInt32 | src/core/math/Color3.js:66 | the 32-bit signed conversion of the shift operators: in range and congruent modulo 2^32 |
| Colors.LowByte | src/core/math/Color3.js:66-68 | `& 255` gives a byte |
| Colors.HexByte | src/core/math/Color3.js:66-68 | each extracted channel is a byte |
| Colors.HexBytesDecompose | src/core/math/Color3.js:65-73 | for a 24-bit colour the three extracted bytes put back together give the colour |
| Colors.HexComponents | src/core/math/Color3.js:65-73 | every channel set from a hex colour lies in [0, 1] |
| Colors.Trunc | src/core/math/Color3.js:21 | rounding toward zero, the rule of the `%` operator |
| Colors.JsRemByOne | src/core/math/Color3.js:21 | `n % 1` keeps the sign of n, is less than 1 in size, and differs from n by a whole number |
| Colors.EuclideanModuloByOne | src/core/math/Color3.js:20-22 | the hue wrapped by euclideanModulo(h, 1) lies in [0, 1) and differs from h by a whole number |
| Colors.Hue2rgbBetween | src/core/math/Color3.js:24-31 | for a hue offset in [-1, 2] each channel lies between the two ramp ends p and q |
| Colors.BetweenOnRamp | src/core/math/Color3.js:27-29 | a point on the ramp from p to q lies between them |
| Colors.Clamp01 | src/core/math/Color3.js:92-93 | the clamp lies in [0, 1] and keeps values already inside |
| Colors.RampEndsInRange | src/core/math/Color3.js:98-101 | both ramp ends of setHSL lie in [0, 1] for clamped saturation and lightness |
| Colors.HslToRgbInRange | src/core/math/Color3.js:89-106 | setHSL yields three channels, each in [0, 1], for every input |
| Colors.HslGreyWhenUnsaturated | src/core/math/Color3.js:89-97 | with no saturation all three channels equal the clamped lightness |
| Colors.LerpEnds | src/core/math/Color3.js:38-42 | ratio 0 gives the first colour, ratio 1 the second, and ratios in between stay between them |
| Colors.Color3.constructor | src/core/math/Color3.js:8-18 | with only r given the colour is set from hex (absent: 0); otherwise from r, g, b |
| Colors.Color3.LerpColors | src/core/math/Color3.js:38-42 | each channel is interpolated between the two colours' old channels |
| Colors.Color3.LerpTo | src/core/math/Color3.js:47-49 | each channel is interpolated from this colour toward the given one |
| Colors.Color3.Copy | src/core/math/Color3.js:54-60 | all three channels become the source's |
| Colors.Color3.SetHex | src/core/math/Color3.js:65-73 | the channels are the three extracted bytes over 255 |
| Colors.Color3.SetRGB | src/core/math/Color3.js:78-84 | the channels are exactly the given values |
| Colors.Color3.SetHSL | src/core/math/Color3.js:89-106 | the channels are the HSL conversion, hence each in [0, 1] |
| Colors.Color3.FromArray | src/core/math/Color3.js:111-119 | the channels are the three entries at the offset (default 0) |
| Colors.Color3.ToArray | src/core/math/Color3.js:124-133 | the channels are written at offset..offset+2 of the given array, which is returned with every other entry unchanged; with no array, a new one is returned |
| Colors.ArrayRoundTrip | src/core/math/Color3.js:111-133 | writing a colour out and reading it back at the same offset restores it |
| Planes.DotSymmetric | src/core/math/Plane.js:66-67 | the dot product does not depend on argument order |
| Planes.DotScale | src/core/math/Plane.js:76 | scaling a vector scales its dot products |
| Planes.ThroughPointContainsIt | src/core/math/Plane.js:43-48 | the plane through a point with a given normal contains that point |
| Planes.CoplanarPointOnPlane | src/core/math/Plane.js:73-77 | the point -constant × normal is at signed distance constant·(1 - \|normal\|²), so it lies on the plane for a unit normal |
| Planes.Vector3.MultiplyScalar | src/core/math/Plane.js:76 | every coordinate is scaled by the factor |
| Planes.Plane.constructor | src/core/math/Plane.js:13-16 | the normal is the caller's vector (none given: a new (1, 0, 0)) and the constant is the given one (none given: 0) |
| Planes.Plane.Set | src/core/math/Plane.js:23-28 | the normal's coordinates and the constant become exactly the given ones |
| Planes.Plane.SetComponents | src/core/math/Plane.js:33-38 | the normal becomes (x, y, z) and the constant w |
| Planes.Plane.SetFromNormalAndCoplanarPoint | src/core/math/Plane.js:43-48 | the normal is copied and the constant makes the given point lie on the plane: its distance is then 0 |
| Planes.Plane.DistanceToPoint | src/core/math/Plane.js:66-68 | the signed distance normal·p + constant |
| Planes.Plane.CoplanarPoint | src/core/math/Plane.js:73-77 | returns -constant × normal, in the given target or a new vector; unless the target is the normal itself the normal is unchanged, and for a unit normal the point is on the plane |
| Planes.Plane.Copy | src/core/math/Plane.js:82-86 | the normal's coordinates and the constant become the other plane's |

## Left out

- Pixel data and the native graphics context are not modelled: calls are events in a log, and handles come from a counter.
  - `getContext`, the `WebGLCore` set-up and the pixels drawn by the canvas resizes are not part of this model.
  - `base.js` is not part of this model. Its `isPowerOfTwo` is defined as "n = 2^k", `nearestPowerOfTwo` is a parameter about which nothing is assumed, and `isWeb` is taken as true.
- The `console.warn` diagnostics are left out because they only print, and so is the breakdown of the framebuffer status into messages. The status query is one event.
- The commented-out sampler code in `setTextureParameters` is left out because it is dead.
- Event listeners are not modelled. Disposing is an explicit release call.
- The properties store (`WebGLProperties`) is not part of this model. Reading a missing entry gives the empty record.
- `TextureRules.ClampToMaxSize`: sizes use exact integer floor arithmetic, not floating-point scale-then-floor.
- The texture's warnings about unsupported formats on WebGL 1 are left out. Only the pixel type passed to uploads is kept.
- A texture whose sampling needs no power-of-two sizes would not need the fallback, yet the code decides the fallback from the image size alone on WebGL 1. The model follows the code. `TextureRules.CompatibleImageKeptAsIs` shows the parameters come out unchanged anyway when the magnifying filter is NEAREST or LINEAR.
- `setRenderTargetCube` makes a new framebuffer whenever the cube texture has no handle, even if the target already has a framebuffer. The old handle is then lost without being deleted. The model follows the code.
- WebGLTextures.RenderTarget: the attachment points are assumed distinct and ascending (`AttachmentsAscending`), as JavaScript's `for ... in` visits the integer keys of `_textures`; the object-key order is not modelled otherwise.
- The binder follows the range test of line 410 as written (`TextureRules.DrawBufferListAsWritten`); the corrected list is proved separately, and `WebGLTextures.DrawBufferCallAgrees` shows the two agree for targets that do not use COLOR_ATTACHMENT10..15.
- WebGLTextures.WebGLTexture.SetTextureCube: the upload path with fewer than six images is excluded, because there the code throws a TypeError (`_isPowerOfTwo(undefined)`, lines 286-298); the short path takes any image list. `RenderTarget.CubeReady` asks for six images on the current-target and reuse paths too, because a target reaches them only after the creation path has read all six.
- WebGLTextures.WebGLTexture.BindForAttachment: states only that the calls it adds are texture calls, not which ones. SetTexture2D states those.
- `ShadowMapPass.render`, `scene.updateMatrix`, `scene.updateLights` and `glCore.render` are not part of this model. They are opaque events in the renderer's trace.
- Renderer objects are ids: a target is an id plus whether it has a texture. The binding of the chosen target is not connected to the texture binder's `SetRenderTarget` in this model.
- Matrix numerics (`getInverse`, `multiply`, `decompose`, `toArray`) are uninterpreted operations, and `Matrix4` is not part of this model.
  - Skeletons.Skeleton.UpdateBones: stores exact reals, not the Float32 rounding of the bone buffer.
  - Skeletons.Skeleton.Pose: a bone's parent is tested for being a bone by its `type` tag only.
- All arithmetic in `Color3` and `Plane` is over exact reals. IEEE-754 rounding, NaN and infinities are not modelled.
  - Colors.Color3.SetHex: the argument is a real that is floored first, as the shift operators do. A NaN or infinite argument is not modelled; the constructor passes 0 where JavaScript would pass `undefined`.
  - Colors.Color3.constructor: a call giving only one of g and b is excluded, and so is a call giving g and b without r. JavaScript would take the RGB path and store `undefined` in the missing component.
  - Colors.EuclideanModuloByOne: the range is proved only for modulus 1, which is the only modulus setHSL uses.
  - Colors.Color3.FromArray: an offset whose entries lie past the end of the array is excluded. JavaScript would read `undefined`.
  - Colors.Color3.ToArray: a fixed-length array replaces the JavaScript array. A write past the end (which would grow the array) is excluded. With no array given, the new array has zeros before the offset.
- `Plane.normalize` is left out because it needs a square root and divides by zero for a zero normal.
- `Plane.applyMatrix4` is left out because it relies on `Matrix3` and `Matrix4`, which are not part of this model.
- `SpotLight.js` is not part of this model. It holds only constructor defaults and delegates its copy to classes that are not shown.

## Findings

| source | as written | input that shows it | evidently intended | confidence | as-written member | corrected member |
|---|---|---|---|---|---|---|
| src/core/render/WebGL/WebGLTexture.js:410 | the second range of the draw-buffer test is `0x8CE10..0x8CE15` | a target with attachments COLOR_ATTACHMENT0 and COLOR_ATTACHMENT10 (0x8CEA) draws only into COLOR_ATTACHMENT0, and the non-attachment 0x8CE10 would pass | every colour attachment COLOR_ATTACHMENT0..COLOR_ATTACHMENT15 (0x8CE0..0x8CEF) joins the draw buffers | high; not executed | TextureRules.EleventhAttachmentNotDrawn | TextureRules.DrawBufferListMembers |
