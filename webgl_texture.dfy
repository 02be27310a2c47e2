/**
 * The texture and render-target binding layer (WebGLTexture.js): a side table
 * from each texture or render target to its native handles and cached version,
 * the upload pipeline for 2D and cube textures, framebuffer construction and
 * the "current render target" state machine. Every graphics call is appended
 * to `log`; native handles come from a counter, so a created handle is fresh.
 */
module WebGLTextures {
  import opened Wrappers
  import opened GL
  import opened TextureRules

  /** A logical texture (2D or cube). Only `generateMipmaps` is changed by the binder. */
  class Texture {
    const id: Id
    var version: int
    var image: Option<Image>
    var images: seq<Image>
    var wrapS: int
    var wrapT: int
    var magFilter: int
    var minFilter: int
    var anisotropy: int
    var format: int
    /** 0 stands for an unset internal format, which falls back to `format`. */
    var internalformat: int
    var pixelType: int
    var flipY: bool
    var mipmaps: seq<Image>
    var generateMipmaps: bool
    var textureType: int

    constructor (id: Id, textureType: int, version: int, image: Option<Image>, images: seq<Image>,
                 sampling: Sampling, format: int, internalformat: int, pixelType: int,
                 flipY: bool, mipmaps: seq<Image>, generateMipmaps: bool)
      ensures this.id == id && this.textureType == textureType && this.version == version
      ensures this.image == image && this.images == images && Settings() == sampling
      ensures this.format == format && this.internalformat == internalformat && this.pixelType == pixelType
      ensures this.flipY == flipY && this.mipmaps == mipmaps && this.generateMipmaps == generateMipmaps
    {
      this.id := id;
      this.textureType := textureType;
      this.version := version;
      this.image := image;
      this.images := images;
      this.wrapS := sampling.wrapS;
      this.wrapT := sampling.wrapT;
      this.magFilter := sampling.magFilter;
      this.minFilter := sampling.minFilter;
      this.anisotropy := sampling.anisotropy;
      this.format := format;
      this.internalformat := internalformat;
      this.pixelType := pixelType;
      this.flipY := flipY;
      this.mipmaps := mipmaps;
      this.generateMipmaps := generateMipmaps;
    }

    /** (wrapS, wrapT, magFilter, minFilter, anisotropy) */
    function Settings(): Sampling
      reads this`wrapS, this`wrapT, this`magFilter, this`minFilter, this`anisotropy
    {
      Sampling(wrapS, wrapT, magFilter, minFilter, anisotropy)
    }

    /** `internalformat || format`, `format`, and the type with WebGL 2's half-float substitution. */
    function FormatFor(caps: Capabilities): PixelFormat
      reads this`internalformat, this`format, this`pixelType
    {
      PixelFormat(if internalformat != 0 then internalformat else format, format, EffectivePixelType(pixelType, caps))
    }
  }

  /** One entry of a 2D render target's `_textures`: an attachment point and its texture. */
  datatype Attachment = Attachment(point: int, texture: Texture)

  function Points(attachments: seq<Attachment>): (r: seq<int>)
    ensures |r| == |attachments| && forall i :: 0 <= i < |r| ==> r[i] == attachments[i].point
  {
    if attachments == [] then []
    else Points(attachments[..|attachments| - 1]) + [attachments[|attachments| - 1].point]
  }

  /**
   * A render target: the back target (it has a `view`), a cube target (it has
   * an `activeCubeFace`) or a 2D target. `attachments` lists `_textures` in the
   * order `for ... in` visits its numeric keys, which is ascending.
   */
  class RenderTarget {
    const id: Id
    var view: bool
    var activeCubeFace: Option<int>
    var attachments: seq<Attachment>
    var texture: Texture?
    var width: nat
    var height: nat
    var depthBuffer: bool
    var stencilBuffer: bool

    constructor (id: Id, view: bool, activeCubeFace: Option<int>, attachments: seq<Attachment>, texture: Texture?,
                 width: nat, height: nat, depthBuffer: bool, stencilBuffer: bool)
      ensures this.id == id && this.view == view && this.activeCubeFace == activeCubeFace
      ensures this.attachments == attachments && this.texture == texture
      ensures this.width == width && this.height == height
      ensures this.depthBuffer == depthBuffer && this.stencilBuffer == stencilBuffer
    {
      this.id := id;
      this.view := view;
      this.activeCubeFace := activeCubeFace;
      this.attachments := attachments;
      this.texture := texture;
      this.width := width;
      this.height := height;
      this.depthBuffer := depthBuffer;
      this.stencilBuffer := stencilBuffer;
    }

    /** `_textures[point]` is set. */
    predicate HasAttachment(point: int)
      reads this
    {
      exists i :: 0 <= i < |attachments| && attachments[i].point == point
    }

    /** A depth renderbuffer is wanted and no depth or depth-stencil texture replaces it. */
    predicate NeedsDepthRenderbuffer()
      reads this
    {
      depthBuffer && !HasAttachment(DEPTH_STENCIL_ATTACHMENT) && !HasAttachment(DEPTH_ATTACHMENT)
    }

    /** The ids of the attached textures. */
    ghost function TextureIds(): set<Id>
      reads this`attachments
    {
      set a | a in attachments :: a.texture.id
    }

    ghost function AttachedTextures(): set<Texture>
      reads this`attachments
    {
      set a | a in attachments :: a.texture
    }

    /** `activeCubeFace !== undefined` */
    predicate IsCube()
      reads this
    {
      activeCubeFace.Some?
    }

    /** The target's id is not the id of any of its textures. */
    ghost predicate Attachable()
      reads this`attachments
    {
      id !in TextureIds()
    }

    /** The attachment points are distinct and ascending, as `for ... in` visits the keys of `_textures`. */
    ghost predicate AttachmentsAscending()
      reads this`attachments
    {
      StrictlyIncreasing(Points(attachments))
    }

    /** A cube target with an active face and a cube texture of six images, distinct from the target. */
    predicate CubeReady()
      reads this, texture
    {
      activeCubeFace.Some? && texture != null && |texture.images| >= 6 && texture.id != id
    }

    /** `gl.TEXTURE_CUBE_MAP_POSITIVE_X + activeCubeFace` */
    function FaceTarget(): int
      requires activeCubeFace.Some?
      reads this
    {
      TEXTURE_CUBE_MAP_POSITIVE_X + activeCubeFace.value
    }
  }

  /**
   * A 2D target that attaches nothing at COLOR_ATTACHMENT10..15 or
   * 0x8CE10..0x8CE15 gets, in `Built2D`, the draw-buffer call of the corrected
   * test.
   */
  lemma DrawBufferCallAgrees(attachments: seq<Attachment>, caps: Capabilities)
    requires forall a :: a in attachments ==> !(ColorAttachment(10) <= a.point <= ColorAttachment(15)) && !(0x8CE10 <= a.point <= 0x8CE15)
    ensures DrawBufferCmds(DrawBufferListAsWritten(Points(attachments)), caps) == DrawBufferCmds(DrawBufferList(Points(attachments)), caps)
  {
    var points := Points(attachments);
    forall i | 0 <= i < |points|
      ensures !(ColorAttachment(10) <= points[i] <= ColorAttachment(15)) && !(0x8CE10 <= points[i] <= 0x8CE15)
    {
      assert attachments[i] in attachments;
    }
    AsWrittenAgreesOnFirstTen(points);
  }

  /** One more attachment adds its point to the draw-buffer list (as written) exactly when it passes the range test. */
  lemma DrawBufferListStep(attachments: seq<Attachment>, i: nat)
    requires i < |attachments|
    ensures DrawBufferListAsWritten(Points(attachments[..i + 1]))
         == DrawBufferListAsWritten(Points(attachments[..i])) + (if DrawBufferCandidate(attachments[i].point) then [attachments[i].point] else [])
  {
    assert attachments[..i + 1][..i] == attachments[..i];
    assert Points(attachments[..i + 1]) == Points(attachments[..i]) + [attachments[i].point];
    DrawBufferListAsWrittenSnoc(Points(attachments[..i]), attachments[i].point);
  }

  /** `gl.TEXTURE0 + slot`, or no slot at all. */
  function SlotUnit(slot: Option<int>): Option<int> {
    if slot.Some? then Some(TEXTURE0 + slot.value) else None
  }

  /** The (attachment point, attached handle) of every `framebufferTexture2D` call in a log, in order. */
  function Attached(cmds: seq<Cmd>): seq<(int, Option<Handle>)> {
    if cmds == [] then []
    else
      var last := cmds[|cmds| - 1];
      Attached(cmds[..|cmds| - 1]) + (if last.FramebufferTexture2D? then [(last.attachment, last.attached)] else [])
  }

  lemma {:induction false} AttachedAppend(a: seq<Cmd>, b: seq<Cmd>)
    ensures Attached(a + b) == Attached(a) + Attached(b)
    decreases |b|
  {
    if b != [] {
      var b' := b[..|b| - 1];
      AttachedAppend(a, b');
      assert (a + b)[..|a + b| - 1] == a + b';
      assert (a + b)[|a + b| - 1] == b[|b| - 1];
    } else {
      assert a + b == a;
    }
  }

  lemma {:induction false} AttachedOfTextureCmds(cmds: seq<Cmd>)
    requires TextureCmds(cmds)
    ensures Attached(cmds) == []
  {
    if cmds != [] {
      var init := cmds[..|cmds| - 1];
      assert forall c :: c in init ==> c in cmds;
      AttachedOfTextureCmds(init);
      assert TextureCmd(cmds[|cmds| - 1]);
    }
  }

  /** `properties.get(object)` on a table: an object never seen has an empty record. */
  function Lookup(props: map<Id, Props>, id: Id): Props {
    if id in props then props[id] else EmptyProps
  }

  /** The condition of WebGLTexture.js:125 for a texture whose record is `p`. */
  predicate Stale2D(t: Texture, p: Props, slot: Option<int>)
    reads t`image, t`version
  {
    t.image.Some? && (!t.image.value.rtt || slot.None?) && p.version != Some(t.version)
  }

  /** Every texture handle recorded in `before` is still recorded, unchanged, in `after`. */
  predicate HandlesKept(before: map<Id, Props>, after: map<Id, Props>) {
    forall id :: id in before && before[id].texture.Some? ==> id in after && after[id].texture == before[id].texture
  }

  lemma HandlesKeptTransitive(a: map<Id, Props>, b: map<Id, Props>, c: map<Id, Props>)
    requires HandlesKept(a, b) && HandlesKept(b, c)
    ensures HandlesKept(a, c)
  {
  }

  /**
   * What the attachment loop of `setRenderTarget2D` keeps after the first `i`
   * of `atts`, against the table `props`: only texture and attach calls, and
   * one attach call per attachment, at its point, whose handle (when there is
   * one) is the handle recorded for the texture.
   */
  ghost predicate AttachedSoFar(atts: seq<Attachment>, i: nat, attachCmds: seq<Cmd>, props: map<Id, Props>)
    requires i <= |atts|
  {
    && (forall c :: c in attachCmds ==> AttachCmd(c))
    && |Attached(attachCmds)| == i
    && (forall j :: 0 <= j < i ==> Attached(attachCmds)[j].0 == atts[j].point)
    && (forall j :: 0 <= j < i && Attached(attachCmds)[j].1.Some? ==>
          Attached(attachCmds)[j].1 == Lookup(props, atts[j].texture.id).texture)
  }

  /** Later steps that keep every recorded handle keep `AttachedSoFar`. */
  lemma AttachedSoFarKept(atts: seq<Attachment>, i: nat, attachCmds: seq<Cmd>, before: map<Id, Props>, after: map<Id, Props>)
    requires i <= |atts|
    requires AttachedSoFar(atts, i, attachCmds, before)
    requires HandlesKept(before, after)
    ensures AttachedSoFar(atts, i, attachCmds, after)
  {
    forall j | 0 <= j < i && Attached(attachCmds)[j].1.Some?
      ensures Attached(attachCmds)[j].1 == Lookup(after, atts[j].texture.id).texture
    {
      assert Lookup(before, atts[j].texture.id).texture.Some?;
    }
  }

  /** One more attachment extends `AttachedSoFar` by one entry. */
  lemma AttachedSoFarStep(atts: seq<Attachment>, i: nat, done: seq<Cmd>, cmds: seq<Cmd>, before: map<Id, Props>, after: map<Id, Props>)
    requires i < |atts|
    requires AttachedSoFar(atts, i, done, before)
    requires forall c :: c in cmds ==> AttachCmd(c)
    requires Attached(cmds) == [(atts[i].point, Lookup(after, atts[i].texture.id).texture)]
    requires HandlesKept(before, after)
    ensures AttachedSoFar(atts, i + 1, done + cmds, after)
  {
    var all := Attached(done + cmds);
    AttachedAppend(done, cmds);
    AttachedSoFarKept(atts, i, done, before, after);
    assert all == Attached(done) + [(atts[i].point, Lookup(after, atts[i].texture.id).texture)];
    forall c | c in done + cmds
      ensures AttachCmd(c)
    {
    }
    forall j | 0 <= j < i + 1
      ensures all[j].0 == atts[j].point
      ensures all[j].1.Some? ==> all[j].1 == Lookup(after, atts[j].texture.id).texture
    {
      if j < i {
        assert all[j] == Attached(done)[j];
      }
    }
  }

  /** Calls made while attaching textures: texture calls and `framebufferTexture2D`. */
  predicate AttachCmd(c: Cmd) {
    TextureCmd(c) || c.FramebufferTexture2D?
  }

  class WebGLTexture {
    const caps: Capabilities
    /** `nearestPowerOfTwo` of base.js, left uninterpreted. */
    const nearestPowerOfTwo: nat -> nat
    /** The side table `properties`, keyed by object id. */
    var properties: map<Id, Props>
    /** `state.currentRenderTarget` */
    var currentRenderTarget: Option<Id>
    /** Every graphics call issued so far. */
    var log: seq<Cmd>
    /** The next native handle the context hands out. */
    var nextHandle: Handle

    /** Every recorded handle has already been handed out. */
    ghost predicate Valid()
      reads this
    {
      forall id :: id in properties ==> HandlesBelow(properties[id], nextHandle)
    }

    constructor (caps: Capabilities, nearestPowerOfTwo: nat -> nat)
      ensures Valid()
      ensures this.caps == caps && this.nearestPowerOfTwo == nearestPowerOfTwo
      ensures properties == map[] && currentRenderTarget == None && log == []
    {
      this.caps := caps;
      this.nearestPowerOfTwo := nearestPowerOfTwo;
      properties := map[];
      currentRenderTarget := None;
      log := [];
      nextHandle := 0;
    }

    /** `properties.get(object)`: an object never seen has an empty record. */
    function PropsOf(id: Id): Props
      reads this`properties
    {
      Lookup(properties, id)
    }

    /** The image `setTexture2D` / `setTextureCube` uploads in place of `image`. */
    function Prepared(t: Texture, image: Image): Image
      reads t`wrapS, t`wrapT, t`magFilter, t`minFilter, t`anisotropy
    {
      PreparedImage(image, t.Settings(), caps, nearestPowerOfTwo)
    }

    /** The six prepared faces of a cube texture. */
    function PreparedFaces(t: Texture): seq<Image>
      requires |t.images| >= 6
      reads t`images, t`wrapS, t`wrapT, t`magFilter, t`minFilter, t`anisotropy
    {
      PreparedImages(t.images[..6], t.Settings(), caps, nearestPowerOfTwo)
    }

    /** The condition of WebGLTexture.js:125: an image to upload and a stale cached version. */
    predicate Uploads2D(t: Texture, slot: Option<int>)
      reads this`properties, t`image, t`version
    {
      Stale2D(t, PropsOf(t.id), slot)
    }

    /** The condition of WebGLTexture.js:238. */
    predicate UploadsCube(t: Texture, slot: Option<int>)
      reads this`properties, t`version
    {
      (t.version > 0 || slot.None?) && PropsOf(t.id).version != Some(t.version)
    }

    /** The creation call, when no handle is recorded yet. */
    function CreationCmds(recorded: Option<Handle>, next: Handle): seq<Cmd> {
      if recorded.None? then [CreateTexture(next)] else []
    }

    /** `gl.createXxx()`: a handle never handed out before. */
    method NewHandle() returns (h: Handle)
      requires Valid()
      modifies this`nextHandle
      ensures Valid()
      ensures h == old(nextHandle) && nextHandle == h + 1
    {
      h := nextHandle;
      nextHandle := nextHandle + 1;
    }

    /** `setTextureParameters`: wrap, filter and (with the extension) clamped anisotropy. */
    method SetTextureParameters(t: Texture, needFallback: bool)
      modifies this`log
      ensures log == old(log) + ParameterCmds(t.textureType, GetTextureParameters(t.Settings(), needFallback), caps)
    {
      var p := GetTextureParameters(t.Settings(), needFallback);
      log := log + [ TexParameteri(t.textureType, TEXTURE_WRAP_S, p.wrapS),
                     TexParameteri(t.textureType, TEXTURE_WRAP_T, p.wrapT),
                     TexParameteri(t.textureType, TEXTURE_MAG_FILTER, p.magFilter),
                     TexParameteri(t.textureType, TEXTURE_MIN_FILTER, p.minFilter) ];
      if caps.anisotropyExt {
        log := log + [TexParameterf(t.textureType, TEXTURE_MAX_ANISOTROPY_EXT, Min(p.anisotropy, caps.maxAnisotropy))];
      }
    }

    /** Activates the slot, binds the handle, sets `UNPACK_FLIP_Y` and the parameters (lines 131-184, 245-307). */
    method BindAndSetParameters(t: Texture, target: int, slot: Option<int>, handle: Option<Handle>, needFallback: bool)
      modifies this`log
      ensures log == old(log) + [ActiveTexture(SlotUnit(slot)), BindTexture(target, handle), PixelStoreFlipY(t.flipY)]
                     + ParameterCmds(t.textureType, GetTextureParameters(t.Settings(), needFallback), caps)
    {
      log := log + [ActiveTexture(SlotUnit(slot)), BindTexture(target, handle), PixelStoreFlipY(t.flipY)];
      SetTextureParameters(t, needFallback);
    }

    /** The mip-list or level-0 uploads of `setTexture2D` and its final `generateMipmap` (lines 186-214). */
    method Upload2D(t: Texture, image: Image, needFallback: bool, pf: PixelFormat)
      modifies this`log, t`generateMipmaps
      ensures t.generateMipmaps == (old(t.generateMipmaps) && !UsesMipmapList(t.mipmaps, needFallback))
      ensures log == old(log) + ImageUploads2D(image, t.mipmaps, needFallback, pf)
                     + MipmapGeneration(TEXTURE_2D, t.generateMipmaps, needFallback)
    {
      if UsesMipmapList(t.mipmaps, needFallback) {
        var i := 0;
        while i < |t.mipmaps|
          invariant 0 <= i <= |t.mipmaps|
          invariant log == old(log) + LevelUploads(TEXTURE_2D, t.mipmaps[..i], pf)
        {
          assert t.mipmaps[..i + 1][..i] == t.mipmaps[..i];
          log := log + [TexImage2D(TEXTURE_2D, i, pf, t.mipmaps[i].width, t.mipmaps[i].height)];
          i := i + 1;
        }
        assert t.mipmaps[..|t.mipmaps|] == t.mipmaps;
        t.generateMipmaps := false;
      } else {
        log := log + [TexImage2D(TEXTURE_2D, 0, pf, image.width, image.height)];
      }
      if t.generateMipmaps && !needFallback {
        log := log + [GenerateMipmap(TEXTURE_2D)];
      }
    }

    /**
     * The state after the upload path of `setTexture2D` (lines 127-218), against
     * the record `before`, the table, handle counter, log and `generateMipmaps`
     * it started from: the handle is kept or freshly created, the parameters,
     * the mip list or level 0 and maybe `generateMipmap` are issued, and the
     * texture's version is recorded.
     */
    ghost predicate Uploaded2D(t: Texture, slot: Option<int>, p: Props, before: Props, props0: map<Id, Props>,
                               handle0: Handle, log0: seq<Cmd>, generateMipmaps0: bool)
      requires t.image.Some?
      reads this`properties, this`nextHandle, this`log, t`image, t`version, t`wrapS, t`wrapT, t`magFilter, t`minFilter, t`anisotropy, t`flipY, t`textureType,
               t`mipmaps, t`internalformat, t`format, t`pixelType, t`generateMipmaps
    {
      var image := Prepared(t, t.image.value);
      var needFallback := NeedFallback(image, caps);
      && properties == props0[t.id := p]
      && p == before.(texture := p.texture, version := Some(t.version))
      && (before.texture.Some? ==> p.texture == before.texture && nextHandle == handle0)
      && (before.texture.None? ==> p.texture == Some(handle0) && nextHandle == handle0 + 1)
      && t.generateMipmaps == (generateMipmaps0 && !UsesMipmapList(t.mipmaps, needFallback))
      && log == log0 + CreationCmds(before.texture, handle0)
                + [ActiveTexture(SlotUnit(slot)), BindTexture(TEXTURE_2D, p.texture), PixelStoreFlipY(t.flipY)]
                + ParameterCmds(t.textureType, GetTextureParameters(t.Settings(), needFallback), caps)
                + ImageUploads2D(image, t.mipmaps, needFallback, t.FormatFor(caps))
                + MipmapGeneration(TEXTURE_2D, t.generateMipmaps, needFallback)
    }

    /** The upload path of `setTexture2D` issues texture calls only. */
    lemma Uploaded2DTextureCmds(t: Texture, slot: Option<int>, p: Props, before: Props, props0: map<Id, Props>,
                                handle0: Handle, log0: seq<Cmd>, generateMipmaps0: bool)
      requires t.image.Some?
      requires Uploaded2D(t, slot, p, before, props0, handle0, log0, generateMipmaps0)
      ensures log0 <= log && TextureCmds(log[|log0|..])
    {
      var image := Prepared(t, t.image.value);
      var needFallback := NeedFallback(image, caps);
      var opening := CreationCmds(before.texture, handle0)
                     + [ActiveTexture(SlotUnit(slot)), BindTexture(TEXTURE_2D, p.texture), PixelStoreFlipY(t.flipY)];
      var params := ParameterCmds(t.textureType, GetTextureParameters(t.Settings(), needFallback), caps);
      var uploads := ImageUploads2D(image, t.mipmaps, needFallback, t.FormatFor(caps));
      var generation := MipmapGeneration(TEXTURE_2D, t.generateMipmaps, needFallback);
      TextureCmdsConcat(opening, params);
      TextureCmdsConcat(opening + params, uploads);
      TextureCmdsConcat(opening + params + uploads, generation);
      assert log[|log0|..] == opening + params + uploads + generation;
    }

    /**
     * The state after the upload path of `setTextureCube` (lines 240-326): as
     * `Uploaded2D`, with six level-0 face uploads and one shared fallback.
     */
    ghost predicate UploadedCube(t: Texture, slot: Option<int>, p: Props, before: Props, props0: map<Id, Props>,
                                 handle0: Handle, log0: seq<Cmd>)
      requires |t.images| >= 6
      reads this`properties, this`nextHandle, this`log, t`images, t`version, t`wrapS, t`wrapT, t`magFilter, t`minFilter, t`anisotropy, t`flipY, t`textureType,
               t`internalformat, t`format, t`pixelType, t`generateMipmaps
    {
      var faces := PreparedFaces(t);
      var needFallback := AnyNeedsFallback(faces, caps);
      && properties == props0[t.id := p]
      && p == before.(texture := p.texture, version := Some(t.version))
      && (before.texture.Some? ==> p.texture == before.texture && nextHandle == handle0)
      && (before.texture.None? ==> p.texture == Some(handle0) && nextHandle == handle0 + 1)
      && log == log0 + CreationCmds(before.texture, handle0)
                + [ActiveTexture(SlotUnit(slot)), BindTexture(TEXTURE_CUBE_MAP, p.texture), PixelStoreFlipY(t.flipY)]
                + ParameterCmds(t.textureType, GetTextureParameters(t.Settings(), needFallback), caps)
                + FaceUploads(faces, t.FormatFor(caps))
                + MipmapGeneration(TEXTURE_CUBE_MAP, t.generateMipmaps, needFallback)
    }

    /** The upload path of `setTextureCube` issues texture calls only. */
    lemma UploadedCubeTextureCmds(t: Texture, slot: Option<int>, p: Props, before: Props, props0: map<Id, Props>,
                                  handle0: Handle, log0: seq<Cmd>)
      requires |t.images| >= 6
      requires UploadedCube(t, slot, p, before, props0, handle0, log0)
      ensures log0 <= log && TextureCmds(log[|log0|..])
    {
      var faces := PreparedFaces(t);
      var needFallback := AnyNeedsFallback(faces, caps);
      var opening := CreationCmds(before.texture, handle0)
                     + [ActiveTexture(SlotUnit(slot)), BindTexture(TEXTURE_CUBE_MAP, p.texture), PixelStoreFlipY(t.flipY)];
      var params := ParameterCmds(t.textureType, GetTextureParameters(t.Settings(), needFallback), caps);
      var uploads := FaceUploads(faces, t.FormatFor(caps));
      var generation := MipmapGeneration(TEXTURE_CUBE_MAP, t.generateMipmaps, needFallback);
      TextureCmdsConcat(opening, params);
      TextureCmdsConcat(opening + params, uploads);
      TextureCmdsConcat(opening + params + uploads, generation);
      assert log[|log0|..] == opening + params + uploads + generation;
    }

    /** The handle of a record, created and logged when none is recorded (lines 127-130, 240-243). */
    method EnsureTextureHandle(before: Props) returns (p: Props)
      requires Valid() && HandlesBelow(before, nextHandle)
      modifies this`nextHandle, this`log
      ensures Valid() && HandlesBelow(p, nextHandle)
      ensures p == before.(texture := p.texture) && p.texture.Some?
      ensures before.texture.Some? ==> p.texture == before.texture && nextHandle == old(nextHandle)
      ensures before.texture.None? ==> p.texture == Some(old(nextHandle)) && nextHandle == old(nextHandle) + 1
      ensures log == old(log) + CreationCmds(before.texture, old(nextHandle))
    {
      p := before;
      if p.texture.None? {
        var h := NewHandle();
        log := log + [CreateTexture(h)];
        p := p.(texture := Some(h));
      }
    }

    /** The calls of the upload path of `setTexture2D` after the handle exists (lines 131-214). */
    method Issue2DUpload(t: Texture, slot: Option<int>, handle: Option<Handle>)
      requires t.image.Some?
      modifies this`log, t`generateMipmaps
      ensures
        var image := Prepared(t, t.image.value);
        var needFallback := NeedFallback(image, caps);
        && t.generateMipmaps == (old(t.generateMipmaps) && !UsesMipmapList(t.mipmaps, needFallback))
        && log == old(log) + [ActiveTexture(SlotUnit(slot)), BindTexture(TEXTURE_2D, handle), PixelStoreFlipY(t.flipY)]
                  + ParameterCmds(t.textureType, GetTextureParameters(t.Settings(), needFallback), caps)
                  + ImageUploads2D(image, t.mipmaps, needFallback, t.FormatFor(caps))
                  + MipmapGeneration(TEXTURE_2D, t.generateMipmaps, needFallback)
    {
      var image := Prepared(t, t.image.value);
      var needFallback := NeedFallback(image, caps);
      BindAndSetParameters(t, TEXTURE_2D, slot, handle, needFallback);
      Upload2D(t, image, needFallback, t.FormatFor(caps));
    }

    /** The upload path of `setTexture2D` (lines 127-218). */
    method Upload2DPath(t: Texture, slot: Option<int>) returns (p: Props)
      requires Valid() && Uploads2D(t, slot)
      modifies this`nextHandle, this`log, this`properties, t`generateMipmaps
      ensures Valid()
      ensures Uploaded2D(t, slot, p, old(PropsOf(t.id)), old(properties), old(nextHandle), old(log), old(t.generateMipmaps))
    {
      var before := PropsOf(t.id);
      p := EnsureTextureHandle(before);
      Issue2DUpload(t, slot, p.texture);
      p := p.(version := Some(t.version));
      properties := properties[t.id := p];
    }

    /**
     * `setTexture2D`. Short path: only activate and bind. Upload path: create a
     * handle if none is recorded, prepare the image, decide the fallback, set
     * parameters, upload the mip list or level 0, maybe generate mipmaps, and
     * record the texture's version.
     */
    method SetTexture2D(t: Texture, slot: Option<int>) returns (p: Props)
      requires Valid()
      modifies this, t`generateMipmaps
      ensures Valid()
      ensures currentRenderTarget == old(currentRenderTarget)
      ensures !Uploads2D(t, slot)
      ensures !old(Uploads2D(t, slot)) ==>
        && p == old(PropsOf(t.id)) && properties == old(properties) && nextHandle == old(nextHandle)
        && t.generateMipmaps == old(t.generateMipmaps)
        && log == old(log) + [ActiveTexture(SlotUnit(slot)), BindTexture(TEXTURE_2D, p.texture)]
      ensures old(Uploads2D(t, slot)) ==>
        Uploaded2D(t, slot, p, old(PropsOf(t.id)), old(properties), old(nextHandle), old(log), old(t.generateMipmaps))
    {
      if Uploads2D(t, slot) {
        p := Upload2DPath(t, slot);
      } else {
        p := PropsOf(t.id);
        log := log + [ActiveTexture(SlotUnit(slot)), BindTexture(TEXTURE_2D, p.texture)];
      }
    }

    /** Computes the six prepared faces and the shared fallback decision (lines 284-304). */
    method PrepareCubeFaces(t: Texture) returns (faces: seq<Image>, needFallback: bool)
      requires |t.images| >= 6
      ensures faces == PreparedFaces(t)
      ensures needFallback == AnyNeedsFallback(faces, caps)
    {
      faces := [];
      needFallback := false;
      var i := 0;
      while i < 6
        invariant 0 <= i <= 6
        invariant |faces| == i
        invariant forall j :: 0 <= j < i ==> faces[j] == Prepared(t, t.images[j])
        invariant needFallback <==> exists j :: 0 <= j < i && NeedFallback(faces[j], caps)
      {
        var image := Prepared(t, t.images[i]);
        if NeedFallback(image, caps) {
          needFallback := true;
        }
        faces := faces + [image];
        i := i + 1;
      }
    }

    /** The six face uploads and the final `generateMipmap` of `setTextureCube` (lines 309-322). */
    method UploadCube(t: Texture, faces: seq<Image>, needFallback: bool, pf: PixelFormat)
      requires |faces| == 6
      modifies this`log
      ensures log == old(log) + FaceUploads(faces, pf) + MipmapGeneration(TEXTURE_CUBE_MAP, t.generateMipmaps, needFallback)
    {
      var i := 0;
      while i < 6
        invariant 0 <= i <= 6
        invariant log == old(log) + FaceUploads(faces[..i], pf)
      {
        assert faces[..i + 1][..i] == faces[..i];
        log := log + [TexImage2D(TEXTURE_CUBE_MAP_POSITIVE_X + i, 0, pf, faces[i].width, faces[i].height)];
        i := i + 1;
      }
      assert faces[..6] == faces;
      if t.generateMipmaps && !needFallback {
        log := log + [GenerateMipmap(TEXTURE_CUBE_MAP)];
      }
    }

    /** The calls of the upload path of `setTextureCube` after the handle exists (lines 245-322). */
    method IssueCubeUpload(t: Texture, slot: Option<int>, handle: Option<Handle>)
      requires |t.images| >= 6
      modifies this`log
      ensures
        var faces := PreparedFaces(t);
        var needFallback := AnyNeedsFallback(faces, caps);
        log == old(log) + [ActiveTexture(SlotUnit(slot)), BindTexture(TEXTURE_CUBE_MAP, handle), PixelStoreFlipY(t.flipY)]
               + ParameterCmds(t.textureType, GetTextureParameters(t.Settings(), needFallback), caps)
               + FaceUploads(faces, t.FormatFor(caps))
               + MipmapGeneration(TEXTURE_CUBE_MAP, t.generateMipmaps, needFallback)
    {
      var faces, needFallback := PrepareCubeFaces(t);
      BindAndSetParameters(t, TEXTURE_CUBE_MAP, slot, handle, needFallback);
      UploadCube(t, faces, needFallback, t.FormatFor(caps));
    }

    /** The upload path of `setTextureCube` (lines 240-326). */
    method UploadCubePath(t: Texture, slot: Option<int>) returns (p: Props)
      requires Valid() && UploadsCube(t, slot) && |t.images| >= 6
      modifies this`nextHandle, this`log, this`properties
      ensures Valid()
      ensures UploadedCube(t, slot, p, old(PropsOf(t.id)), old(properties), old(nextHandle), old(log))
    {
      var before := PropsOf(t.id);
      p := EnsureTextureHandle(before);
      IssueCubeUpload(t, slot, p.texture);
      p := p.(version := Some(t.version));
      properties := properties[t.id := p];
    }

    /**
     * `setTextureCube`: as `setTexture2D` over six faces sharing one fallback
     * decision (the OR over the faces) and one parameter set; level 0 only.
     */
    method SetTextureCube(t: Texture, slot: Option<int>) returns (p: Props)
      requires Valid()
      requires UploadsCube(t, slot) ==> |t.images| >= 6
      modifies this
      ensures Valid()
      ensures currentRenderTarget == old(currentRenderTarget)
      ensures !UploadsCube(t, slot)
      ensures !old(UploadsCube(t, slot)) ==>
        && p == old(PropsOf(t.id)) && properties == old(properties) && nextHandle == old(nextHandle)
        && log == old(log) + [ActiveTexture(SlotUnit(slot)), BindTexture(TEXTURE_CUBE_MAP, p.texture)]
      ensures old(UploadsCube(t, slot)) ==>
        UploadedCube(t, slot, p, old(PropsOf(t.id)), old(properties), old(nextHandle), old(log))
    {
      if UploadsCube(t, slot) {
        p := UploadCubePath(t, slot);
      } else {
        p := PropsOf(t.id);
        log := log + [ActiveTexture(SlotUnit(slot)), BindTexture(TEXTURE_CUBE_MAP, p.texture)];
      }
    }

    /** `gl.createFramebuffer()` recorded for `rt`, then bound. */
    method CreateFramebufferFor(rt: RenderTarget) returns (fb: Handle)
      requires Valid()
      modifies this`nextHandle, this`log, this`properties
      ensures Valid()
      ensures fb == old(nextHandle) && nextHandle == fb + 1
      ensures properties == old(properties)[rt.id := old(PropsOf(rt.id)).(framebuffer := Some(fb))]
      ensures log == old(log) + [CreateFramebuffer(fb), BindFramebuffer(Some(fb))]
    {
      var before := PropsOf(rt.id);
      fb := NewHandle();
      properties := properties[rt.id := before.(framebuffer := Some(fb))];
      log := log + [CreateFramebuffer(fb), BindFramebuffer(Some(fb))];
    }

    /** A depth (or, with `stencilBuffer`, depth-stencil) renderbuffer, recorded for `rt` and attached. */
    method CreateDepthbuffer(rt: RenderTarget) returns (rb: Handle)
      requires Valid()
      modifies this`nextHandle, this`log, this`properties
      ensures Valid()
      ensures rb == old(nextHandle) && nextHandle == rb + 1
      ensures properties == old(properties)[rt.id := old(PropsOf(rt.id)).(depthbuffer := Some(rb))]
      ensures log == old(log) + DepthbufferCmds(rb, rt.stencilBuffer, rt.width, rt.height)
    {
      var before := PropsOf(rt.id);
      rb := NewHandle();
      properties := properties[rt.id := before.(depthbuffer := Some(rb))];
      var storage := DepthStorage(rt.stencilBuffer);
      log := log + [ CreateRenderbuffer(rb), BindRenderbuffer(Some(rb)), RenderbufferStorage(storage.0, rt.width, rt.height),
                     FramebufferRenderbuffer(storage.1, rb), BindRenderbuffer(None) ];
    }

    /** `setTexture2D` without a slot, in the terms the attachment loop needs. */
    method BindForAttachment(t: Texture) returns (p: Props)
      requires Valid()
      modifies this, t`generateMipmaps
      ensures Valid()
      ensures nextHandle >= old(nextHandle)
      ensures currentRenderTarget == old(currentRenderTarget)
      ensures Lookup(properties, t.id) == p
      ensures forall id :: id != t.id ==> Lookup(properties, id) == Lookup(old(properties), id)
      ensures HandlesKept(old(properties), properties)
      ensures !Stale2D(t, p, None)
      ensures old(log) <= log && TextureCmds(log[|old(log)|..])
    {
      ghost var before := PropsOf(t.id);
      ghost var uploads := Uploads2D(t, None);
      p := SetTexture2D(t, None);
      if uploads {
        Uploaded2DTextureCmds(t, None, p, before, old(properties), old(nextHandle), old(log), old(t.generateMipmaps));
      } else {
        assert log[|old(log)|..] == [ActiveTexture(None), BindTexture(TEXTURE_2D, p.texture)];
      }
    }

    /**
     * One attachment of `setRenderTarget2D` (lines 394-407): `setTexture2D`
     * without a slot, `framebufferTexture2D` at `point` with the texture's
     * handle, and unbinding. Only the texture's own record changes, and it
     * changes only if the texture was stale; afterwards it is up to date.
     */
    method AttachTexture(t: Texture, point: int) returns (ghost cmds: seq<Cmd>)
      requires Valid()
      modifies this, t`generateMipmaps
      ensures Valid()
      ensures nextHandle >= old(nextHandle)
      ensures currentRenderTarget == old(currentRenderTarget)
      ensures forall id :: id != t.id ==> Lookup(properties, id) == Lookup(old(properties), id)
      ensures HandlesKept(old(properties), properties)
      ensures !Stale2D(t, Lookup(properties, t.id), None)
      ensures log == old(log) + cmds
      ensures forall c :: c in cmds ==> AttachCmd(c)
      ensures Attached(cmds) == [(point, Lookup(properties, t.id).texture)]
    {
      var tp := BindForAttachment(t);
      ghost var texCmds := log[|old(log)|..];
      AttachedOfTextureCmds(texCmds);
      var attach := [FramebufferTexture2D(point, TEXTURE_2D, tp.texture), BindTexture(TEXTURE_2D, None)];
      log := log + attach;
      AttachedAppend(texCmds, attach);
      assert attach[..1] == [attach[0]] && attach[..1][..0] == [];
      assert Attached(attach[..1]) == [(point, tp.texture)];
      cmds := texCmds + attach;
    }

    /**
     * The state of the attachment loop after its first `i` attachments,
     * against the record table, log, handle counter and current target it
     * started from, leaving out the draw-buffer list.
     */
    ghost predicate AttachedState(rt: RenderTarget, i: nat, attachCmds: seq<Cmd>,
                                  props0: map<Id, Props>, log0: seq<Cmd>, handle0: Handle, current0: Option<Id>)
      requires i <= |rt.attachments|
      reads this, rt`attachments
    {
      && Valid()
      && nextHandle >= handle0
      && currentRenderTarget == current0
      && (forall id :: id !in rt.TextureIds() ==> Lookup(properties, id) == Lookup(props0, id))
      && log == log0 + attachCmds
      && HandlesKept(props0, properties)
      && AttachedSoFar(rt.attachments, i, attachCmds, properties)
    }

    /** `AttachedState`, with `buffers` holding the points of the first `i` attachments that pass the range test. */
    ghost predicate Attaching(rt: RenderTarget, i: nat, buffers: seq<int>, attachCmds: seq<Cmd>,
                              props0: map<Id, Props>, log0: seq<Cmd>, handle0: Handle, current0: Option<Id>)
      requires i <= |rt.attachments|
      reads this, rt`attachments
    {
      && AttachedState(rt, i, attachCmds, props0, log0, handle0, current0)
      && buffers == DrawBufferListAsWritten(Points(rt.attachments[..i]))
    }

    /** One turn of the attachment loop up to the range test: bind, attach at the point, unbind. */
    method AttachOne(rt: RenderTarget, i: nat, ghost done: seq<Cmd>,
                     ghost props0: map<Id, Props>, ghost log0: seq<Cmd>, ghost handle0: Handle, ghost current0: Option<Id>)
      returns (ghost done': seq<Cmd>)
      requires rt.Attachable() && i < |rt.attachments|
      requires AttachedState(rt, i, done, props0, log0, handle0, current0)
      modifies this, rt.attachments[i].texture`generateMipmaps
      ensures AttachedState(rt, i + 1, done', props0, log0, handle0, current0)
    {
      var a := rt.attachments[i];
      assert a in rt.attachments;
      assert a.texture.id in rt.TextureIds();
      ghost var prior := properties;
      ghost var cmds := AttachTexture(a.texture, a.point);
      AttachedSoFarStep(rt.attachments, i, done, cmds, prior, properties);
      done' := done + cmds;
      forall id | id !in rt.TextureIds()
        ensures Lookup(properties, id) == Lookup(props0, id)
      {
        assert Lookup(properties, id) == Lookup(prior, id);
      }
    }

    /**
     * The attachment loop of `setRenderTarget2D` (lines 393-409): each texture
     * is bound through `setTexture2D` without a slot, attached at its point and
     * unbound; points passing the range test of line 410 join `buffers`.
     */
    method AttachTextures(rt: RenderTarget) returns (buffers: seq<int>, ghost attachCmds: seq<Cmd>)
      requires Valid() && rt.Attachable()
      modifies this, rt.AttachedTextures()`generateMipmaps
      ensures Attaching(rt, |rt.attachments|, buffers, attachCmds,
                        old(properties), old(log), old(nextHandle), old(currentRenderTarget))
    {
      buffers := [];
      attachCmds := [];
      var i := 0;
      while i < |rt.attachments|
        invariant 0 <= i <= |rt.attachments|
        invariant Attaching(rt, i, buffers, attachCmds, old(properties), old(log), old(nextHandle), old(currentRenderTarget))
      {
        assert rt.attachments[i] in rt.attachments;
        attachCmds := AttachOne(rt, i, attachCmds, old(properties), old(log), old(nextHandle), old(currentRenderTarget));
        var point := rt.attachments[i].point;
        DrawBufferListStep(rt.attachments, i);
        if DrawBufferCandidate(point) {
          buffers := buffers + [point];
        }
        i := i + 1;
      }
    }

    /** The end of the creation path of `setRenderTarget2D` (lines 410-458): draw buffers, depth renderbuffer, status check. */
    method FinishFramebuffer2D(rt: RenderTarget, buffers: seq<int>)
      requires Valid()
      modifies this`nextHandle, this`log, this`properties
      ensures Valid()
      ensures
        var needsDepth := rt.NeedsDepthRenderbuffer();
        && nextHandle == old(nextHandle) + (if needsDepth then 1 else 0)
        && properties == (if needsDepth then old(properties)[rt.id := old(PropsOf(rt.id)).(depthbuffer := Some(old(nextHandle)))]
                          else old(properties))
        && log == old(log) + (DrawBufferCmds(buffers, caps)
                  + (if needsDepth then DepthbufferCmds(old(nextHandle), rt.stencilBuffer, rt.width, rt.height) else [])
                  + [CheckFramebufferStatus])
    {
      log := log + DrawBufferCmds(buffers, caps);
      if rt.NeedsDepthRenderbuffer() {
        var rb := CreateDepthbuffer(rt);
      }
      log := log + [CheckFramebufferStatus];
    }

    /**
     * The state after the creation path of `setRenderTarget2D`, against the
     * record table, handle counter and log it started from: a fresh
     * framebuffer (and, when wanted, a fresh depth renderbuffer) recorded for
     * `rt`, no other record changed except those of its textures, no handle
     * replaced, and the calls: create and bind the framebuffer, the
     * attachments, the draw-buffer list, the depth renderbuffer, the check.
     */
    ghost predicate Built2D(rt: RenderTarget, attachCmds: seq<Cmd>, props0: map<Id, Props>, handle0: Handle, log0: seq<Cmd>)
      reads this`properties, this`nextHandle, this`log, rt
    {
      var before := Lookup(props0, rt.id);
      var needsDepth := rt.NeedsDepthRenderbuffer();
      && nextHandle > handle0
      && Lookup(properties, rt.id) == before.(
           framebuffer := Some(handle0),
           depthbuffer := if needsDepth then Some(nextHandle - 1) else before.depthbuffer)
      && (forall id :: id != rt.id && id !in rt.TextureIds() ==> Lookup(properties, id) == Lookup(props0, id))
      && HandlesKept(props0, properties)
      && log == log0 + [CreateFramebuffer(handle0), BindFramebuffer(Some(handle0))] + attachCmds
                + DrawBufferCmds(DrawBufferListAsWritten(Points(rt.attachments)), caps)
                + (if needsDepth then DepthbufferCmds(nextHandle - 1, rt.stencilBuffer, rt.width, rt.height) else [])
                + [CheckFramebufferStatus]
      && AttachedSoFar(rt.attachments, |rt.attachments|, attachCmds, properties)
    }

    /** The start of the creation path of `setRenderTarget2D` (lines 387-409): a framebuffer, then the attachment loop. */
    method OpenAndAttach2D(rt: RenderTarget) returns (buffers: seq<int>, ghost attachCmds: seq<Cmd>)
      requires Valid() && rt.Attachable()
      modifies this, rt.AttachedTextures()`generateMipmaps
      ensures Valid()
      ensures currentRenderTarget == old(currentRenderTarget)
      ensures nextHandle > old(nextHandle)
      ensures Lookup(properties, rt.id) == Lookup(old(properties), rt.id).(framebuffer := Some(old(nextHandle)))
      ensures forall id :: id != rt.id && id !in rt.TextureIds() ==> Lookup(properties, id) == Lookup(old(properties), id)
      ensures HandlesKept(old(properties), properties)
      ensures log == old(log) + [CreateFramebuffer(old(nextHandle)), BindFramebuffer(Some(old(nextHandle)))] + attachCmds
      ensures buffers == DrawBufferListAsWritten(Points(rt.attachments))
      ensures AttachedSoFar(rt.attachments, |rt.attachments|, attachCmds, properties)
    {
      var fb := CreateFramebufferFor(rt);
      ghost var created := properties;
      assert HandlesKept(old(properties), created);
      buffers, attachCmds := AttachTextures(rt);
      assert rt.attachments[..|rt.attachments|] == rt.attachments;
      HandlesKeptTransitive(old(properties), created, properties);
      forall id | id != rt.id && id !in rt.TextureIds()
        ensures Lookup(properties, id) == Lookup(old(properties), id)
      {
        assert Lookup(properties, id) == Lookup(created, id);
      }
    }

    /** The creation path of `setRenderTarget2D` (lines 387-458). */
    method BuildFramebuffer2D(rt: RenderTarget) returns (ghost attachCmds: seq<Cmd>)
      requires Valid() && rt.Attachable()
      modifies this, rt.AttachedTextures()`generateMipmaps
      ensures Valid()
      ensures currentRenderTarget == old(currentRenderTarget)
      ensures Built2D(rt, attachCmds, old(properties), old(nextHandle), old(log))
    {
      var buffers;
      buffers, attachCmds := OpenAndAttach2D(rt);
      ghost var attached := properties;
      ghost var attachedLog := log;
      ghost var mark := nextHandle;
      FinishFramebuffer2D(rt, buffers);
      assert HandlesKept(attached, properties);
      AttachedSoFarKept(rt.attachments, |rt.attachments|, attachCmds, attached, properties);
      HandlesKeptTransitive(old(properties), attached, properties);
      ghost var tail := DrawBufferCmds(buffers, caps)
        + (if rt.NeedsDepthRenderbuffer() then DepthbufferCmds(mark, rt.stencilBuffer, rt.width, rt.height) else [])
        + [CheckFramebufferStatus];
      assert log == attachedLog + tail;
      if rt.NeedsDepthRenderbuffer() {
        assert mark == nextHandle - 1;
        assert Lookup(properties, rt.id) == Lookup(attached, rt.id).(depthbuffer := Some(mark));
      } else {
        assert properties == attached;
      }
    }

    /**
     * `setRenderTarget2D`. Without a recorded framebuffer: create and bind
     * one, attach every texture, issue the draw-buffer list, add a depth
     * renderbuffer when wanted and no depth texture replaces it, and check
     * the status. Otherwise only bind the recorded framebuffer.
     */
    method SetRenderTarget2D(rt: RenderTarget) returns (ghost attachCmds: seq<Cmd>)
      requires Valid() && rt.Attachable() && rt.AttachmentsAscending()
      modifies this, rt.AttachedTextures()`generateMipmaps
      ensures Valid()
      ensures currentRenderTarget == old(currentRenderTarget)
      ensures PropsOf(rt.id).framebuffer.Some?
      ensures old(PropsOf(rt.id)).framebuffer.Some? ==>
        && properties == old(properties) && nextHandle == old(nextHandle)
        && log == old(log) + [BindFramebuffer(old(PropsOf(rt.id)).framebuffer)]
      ensures old(PropsOf(rt.id)).framebuffer.None? ==> Built2D(rt, attachCmds, old(properties), old(nextHandle), old(log))
      ensures StrictlyIncreasing(DrawBufferListAsWritten(Points(rt.attachments)))
    {
      DrawBufferListAsWrittenIncreasing(Points(rt.attachments));
      var before := PropsOf(rt.id);
      if before.framebuffer.Some? {
        log := log + [BindFramebuffer(before.framebuffer)];
        attachCmds := [];
      } else {
        attachCmds := BuildFramebuffer2D(rt);
      }
    }

    /** `setRenderTargetCube` creates a framebuffer when the texture or the framebuffer handle is missing. */
    predicate CubeNeedsFramebuffer(rt: RenderTarget)
      requires rt.CubeReady()
      reads this`properties, rt, rt.texture
    {
      PropsOf(rt.texture.id).texture.None? || PropsOf(rt.id).framebuffer.None?
    }

    /**
     * The state after the creation path of `setRenderTargetCube`, against the
     * record table, handle counter and log it started from: a fresh
     * framebuffer (and, when wanted, a fresh depth renderbuffer) recorded for
     * `rt`, no record changed except those of the target and its texture, the
     * cube texture up to date, and the calls: create and bind the framebuffer,
     * the cube texture's own calls, attach the active face, unbind the cube,
     * the depth renderbuffer, the check.
     */
    ghost predicate BuiltCube(rt: RenderTarget, textureCmds: seq<Cmd>, props0: map<Id, Props>, handle0: Handle, log0: seq<Cmd>)
      requires rt.CubeReady()
      reads this`properties, this`nextHandle, this`log, rt, rt.texture
    {
      var before := Lookup(props0, rt.id);
      && nextHandle > handle0
      && PropsOf(rt.id) == before.(
           framebuffer := Some(handle0),
           depthbuffer := if rt.depthBuffer then Some(nextHandle - 1) else before.depthbuffer)
      && (forall id :: id != rt.id && id != rt.texture.id ==> Lookup(properties, id) == Lookup(props0, id))
      && !UploadsCube(rt.texture, None)
      && TextureCmds(textureCmds)
      && log == log0 + [CreateFramebuffer(handle0), BindFramebuffer(Some(handle0))] + textureCmds
                + [ FramebufferTexture2D(COLOR_ATTACHMENT0, rt.FaceTarget(), PropsOf(rt.texture.id).texture),
                    BindTexture(TEXTURE_CUBE_MAP, None) ]
                + (if rt.depthBuffer then DepthbufferCmds(nextHandle - 1, rt.stencilBuffer, rt.width, rt.height) else [])
                + [CheckFramebufferStatus]
    }

    /** The creation path of `setRenderTargetCube` (lines 469-510). */
    method BuildFramebufferCube(rt: RenderTarget) returns (ghost textureCmds: seq<Cmd>)
      requires Valid() && rt.CubeReady()
      modifies this
      ensures Valid()
      ensures currentRenderTarget == old(currentRenderTarget)
      ensures BuiltCube(rt, textureCmds, old(properties), old(nextHandle), old(log))
    {
      ghost var m0 := properties;
      var fb := CreateFramebufferFor(rt);
      ghost var m1 := properties;
      ghost var mark := log;
      var tp := BindCubeForTarget(rt.texture);
      ghost var m2 := properties;
      textureCmds := log[|mark|..];
      assert log == mark + textureCmds;
      log := log + [ FramebufferTexture2D(COLOR_ATTACHMENT0, rt.FaceTarget(), tp.texture),
                     BindTexture(TEXTURE_CUBE_MAP, None) ];
      if rt.depthBuffer {
        var rb := CreateDepthbuffer(rt);
      }
      log := log + [CheckFramebufferStatus];
      forall id | id != rt.id && id != rt.texture.id
        ensures Lookup(properties, id) == Lookup(m0, id)
      {
        assert Lookup(properties, id) == Lookup(m2, id) == Lookup(m1, id);
      }
    }

    /** `setTextureCube` without a slot, as `setRenderTargetCube` sees it. */
    method BindCubeForTarget(t: Texture) returns (p: Props)
      requires Valid() && |t.images| >= 6
      modifies this
      ensures Valid()
      ensures nextHandle >= old(nextHandle)
      ensures currentRenderTarget == old(currentRenderTarget)
      ensures PropsOf(t.id) == p && forall id :: id != t.id ==> Lookup(properties, id) == Lookup(old(properties), id)
      ensures !UploadsCube(t, None)
      ensures old(log) <= log && TextureCmds(log[|old(log)|..])
    {
      ghost var before := PropsOf(t.id);
      ghost var uploads := UploadsCube(t, None);
      p := SetTextureCube(t, None);
      if uploads {
        UploadedCubeTextureCmds(t, None, p, before, old(properties), old(nextHandle), old(log));
      } else {
        assert log[|old(log)|..] == [ActiveTexture(None), BindTexture(TEXTURE_CUBE_MAP, p.texture)];
      }
    }

    /**
     * `setRenderTargetCube`. When a handle is missing: create and bind a new
     * framebuffer, bind the cube texture through `setTextureCube` without a
     * slot, attach the active face, maybe add a depth renderbuffer and check
     * the status. Otherwise bind the framebuffer and re-attach the active face.
     */
    method SetRenderTargetCube(rt: RenderTarget) returns (ghost textureCmds: seq<Cmd>)
      requires Valid() && rt.CubeReady()
      modifies this
      ensures Valid()
      ensures currentRenderTarget == old(currentRenderTarget)
      ensures PropsOf(rt.id).framebuffer.Some?
      ensures !old(CubeNeedsFramebuffer(rt)) ==>
        && properties == old(properties) && nextHandle == old(nextHandle)
        && log == old(log) + [ BindFramebuffer(PropsOf(rt.id).framebuffer),
                               FramebufferTexture2D(COLOR_ATTACHMENT0, rt.FaceTarget(), PropsOf(rt.texture.id).texture) ]
      ensures old(CubeNeedsFramebuffer(rt)) ==> BuiltCube(rt, textureCmds, old(properties), old(nextHandle), old(log))
    {
      if CubeNeedsFramebuffer(rt) {
        textureCmds := BuildFramebufferCube(rt);
      } else {
        textureCmds := [];
        log := log + [ BindFramebuffer(PropsOf(rt.id).framebuffer),
                       FramebufferTexture2D(COLOR_ATTACHMENT0, rt.FaceTarget(), PropsOf(rt.texture.id).texture) ];
      }
    }

    /**
     * `setRenderTarget`: the back target binds the default framebuffer unless
     * it is already current; another target is set up through the 2D or cube
     * path when it is not current, and a current cube target only re-attaches
     * its active face. Either way the target becomes current. `cmds` are the
     * calls of the attachments (2D) or of the cube texture (cube) when a
     * framebuffer is built.
     */
    method SetRenderTarget(rt: RenderTarget) returns (ghost cmds: seq<Cmd>)
      requires Valid()
      requires !rt.view && rt.IsCube() ==> rt.CubeReady()
      requires !rt.view && !rt.IsCube() ==> rt.Attachable() && rt.AttachmentsAscending()
      modifies this, rt.AttachedTextures()`generateMipmaps
      ensures Valid()
      ensures currentRenderTarget == Some(rt.id)
      ensures rt.view ==>
        && properties == old(properties) && nextHandle == old(nextHandle)
        && log == old(log) + (if old(currentRenderTarget) == Some(rt.id) then [] else [BindFramebuffer(None)])
      ensures !rt.view && old(currentRenderTarget) == Some(rt.id) ==>
        && properties == old(properties) && nextHandle == old(nextHandle)
        && log == old(log) + (if rt.IsCube()
                              then [FramebufferTexture2D(COLOR_ATTACHMENT0, rt.FaceTarget(), PropsOf(rt.texture.id).texture)]
                              else [])
      ensures !rt.view && old(currentRenderTarget) != Some(rt.id) ==> PropsOf(rt.id).framebuffer.Some?
      // A 2D target that is not current: rebind its framebuffer, or build one.
      ensures !rt.view && old(currentRenderTarget) != Some(rt.id) && !rt.IsCube() && old(PropsOf(rt.id)).framebuffer.Some? ==>
        && properties == old(properties) && nextHandle == old(nextHandle)
        && log == old(log) + [BindFramebuffer(old(PropsOf(rt.id)).framebuffer)]
      ensures !rt.view && old(currentRenderTarget) != Some(rt.id) && !rt.IsCube() && old(PropsOf(rt.id)).framebuffer.None? ==>
        Built2D(rt, cmds, old(properties), old(nextHandle), old(log))
      // A cube target that is not current: rebind and re-attach the face, or build a framebuffer.
      ensures !rt.view && old(currentRenderTarget) != Some(rt.id) && rt.IsCube() && !old(CubeNeedsFramebuffer(rt)) ==>
        && properties == old(properties) && nextHandle == old(nextHandle)
        && log == old(log) + [ BindFramebuffer(PropsOf(rt.id).framebuffer),
                               FramebufferTexture2D(COLOR_ATTACHMENT0, rt.FaceTarget(), PropsOf(rt.texture.id).texture) ]
      ensures !rt.view && old(currentRenderTarget) != Some(rt.id) && rt.IsCube() && old(CubeNeedsFramebuffer(rt)) ==>
        BuiltCube(rt, cmds, old(properties), old(nextHandle), old(log))
    {
      cmds := [];
      if rt.view {
        if currentRenderTarget != Some(rt.id) {
          log := log + [BindFramebuffer(None)];
          currentRenderTarget := Some(rt.id);
        }
        return;
      }
      if currentRenderTarget != Some(rt.id) {
        if !rt.IsCube() {
          cmds := SetRenderTarget2D(rt);
        } else {
          cmds := SetRenderTargetCube(rt);
        }
        currentRenderTarget := Some(rt.id);
      } else if rt.IsCube() {
        log := log + [FramebufferTexture2D(COLOR_ATTACHMENT0, rt.FaceTarget(), PropsOf(rt.texture.id).texture)];
      }
    }

    /**
     * `updateRenderTargetMipmap`: rebuild the mip chain of a target's texture
     * when mipmaps are wanted, the target is a power of two and the minifying
     * filter samples mipmaps.
     */
    method UpdateRenderTargetMipmap(rt: RenderTarget)
      requires rt.texture != null
      modifies this`log
      ensures var t := rt.texture; var h := PropsOf(t.id).texture;
        log == old(log) + (if RegeneratesMipmaps(t.generateMipmaps, t.minFilter, rt.width, rt.height)
                           then [BindTexture(t.textureType, h), GenerateMipmap(t.textureType), BindTexture(t.textureType, None)]
                           else [])
    {
      var t := rt.texture;
      if t.generateMipmaps && SizeIsPowerOfTwo(rt.width, rt.height) && t.minFilter != NEAREST && t.minFilter != LINEAR {
        var h := PropsOf(t.id).texture;
        log := log + [BindTexture(t.textureType, h), GenerateMipmap(t.textureType), BindTexture(t.textureType, None)];
      }
    }

    /** `onTextureDispose`: delete the handle if one is recorded, then forget the texture. */
    method ReleaseTexture(id: Id)
      requires Valid()
      modifies this`log, this`properties
      ensures Valid()
      ensures properties == old(properties) - {id} && PropsOf(id) == EmptyProps
      ensures log == old(log) + (if old(PropsOf(id)).texture.Some? then [DeleteTexture(old(PropsOf(id)).texture.value)] else [])
      ensures id !in old(properties) ==> log == old(log) && properties == old(properties)
    {
      var p := PropsOf(id);
      if p.texture.Some? {
        log := log + [DeleteTexture(p.texture.value)];
      }
      properties := properties - {id};
    }

    /** `onRenderTargetDispose`: delete the recorded framebuffer and renderbuffer, then forget the target. */
    method ReleaseRenderTarget(id: Id)
      requires Valid()
      modifies this`log, this`properties
      ensures Valid()
      ensures properties == old(properties) - {id} && PropsOf(id) == EmptyProps
      ensures var p := old(PropsOf(id));
        log == old(log) + (if p.framebuffer.Some? then [DeleteFramebuffer(p.framebuffer.value)] else [])
                        + (if p.depthbuffer.Some? then [DeleteRenderbuffer(p.depthbuffer.value)] else [])
      ensures id !in old(properties) ==> log == old(log) && properties == old(properties)
    {
      var p := PropsOf(id);
      if p.framebuffer.Some? {
        log := log + [DeleteFramebuffer(p.framebuffer.value)];
      }
      if p.depthbuffer.Some? {
        log := log + [DeleteRenderbuffer(p.depthbuffer.value)];
      }
      properties := properties - {id};
    }
  }
}
