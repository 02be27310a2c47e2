/**
 * The WebGL vocabulary the binding layer speaks: enum constants, the command
 * log that stands for every graphics call, images reduced to their size, the
 * capability snapshot and the per-object cache record (`properties`).
 */
module GL {
  import opened Wrappers

  /** Objects (textures, render targets) are named by stable integer ids. */
  type Id = nat
  /** Native handles returned by `gl.createTexture`, `createFramebuffer`, `createRenderbuffer`. */
  type Handle = nat

  // Texture targets and units
  const TEXTURE_2D: int := 0x0DE1
  const TEXTURE_CUBE_MAP: int := 0x8513
  const TEXTURE_CUBE_MAP_POSITIVE_X: int := 0x8515
  const TEXTURE0: int := 0x84C0

  // Texture parameter names
  const TEXTURE_MAG_FILTER: int := 0x2800
  const TEXTURE_MIN_FILTER: int := 0x2801
  const TEXTURE_WRAP_S: int := 0x2802
  const TEXTURE_WRAP_T: int := 0x2803
  const TEXTURE_MAX_ANISOTROPY_EXT: int := 0x84FE

  // Wrap modes
  const REPEAT: int := 0x2901
  const CLAMP_TO_EDGE: int := 0x812F
  const MIRRORED_REPEAT: int := 0x8370

  // Filters
  const NEAREST: int := 0x2600
  const LINEAR: int := 0x2601
  const NEAREST_MIPMAP_NEAREST: int := 0x2700
  const LINEAR_MIPMAP_NEAREST: int := 0x2701
  const NEAREST_MIPMAP_LINEAR: int := 0x2702
  const LINEAR_MIPMAP_LINEAR: int := 0x2703

  // Pixel types: the WebGL 1 half-float enum and the value WebGL 2 uses instead
  const HALF_FLOAT: int := 0x8D61
  const HALF_FLOAT_WEBGL2: int := 0x140B

  // Framebuffer attachment points and renderbuffer formats
  const COLOR_ATTACHMENT0: int := 0x8CE0
  const DEPTH_ATTACHMENT: int := 0x8D00
  const DEPTH_STENCIL_ATTACHMENT: int := 0x821A
  const DEPTH_COMPONENT16: int := 0x81A5
  const DEPTH_STENCIL: int := 0x84F9

  const WEBGL_DRAW_BUFFERS: string := "WEBGL_draw_buffers"

  /** An image reduced to what the binder decides on. */
  datatype Image = Image(width: nat, height: nat, isElement: bool, rtt: bool)

  /** The capability snapshot consulted by the binder. */
  datatype Capabilities = Capabilities(
    version: int,
    maxTextureSize: nat,
    maxAnisotropy: int,
    anisotropyExt: bool,
    extensions: set<string>)

  /** The three format values passed to every `texImage2D`. */
  datatype PixelFormat = PixelFormat(internalformat: int, format: int, pixelType: int)

  /**
   * One graphics call. `ActiveTexture` and `BindTexture` stand for the calls on
   * the shared WebGL state object; every other constructor is a `gl.*` call.
   */
  datatype Cmd =
    | CreateTexture(texture: Handle)
    | ActiveTexture(slot: Option<int>)
    | BindTexture(target: int, bound: Option<Handle>)
    | PixelStoreFlipY(flipY: bool)
    | TexParameteri(target: int, pname: int, param: int)
    | TexParameterf(target: int, pname: int, param: int)
    | TexImage2D(target: int, level: nat, pixelFormat: PixelFormat, width: nat, height: nat)
    | GenerateMipmap(target: int)
    | CreateFramebuffer(framebuffer: Handle)
    | BindFramebuffer(fbo: Option<Handle>)
    | FramebufferTexture2D(attachment: int, texTarget: int, attached: Option<Handle>)
    | DrawBuffers(buffers: seq<int>)
    | DrawBuffersWEBGL(buffers: seq<int>)
    | CreateRenderbuffer(renderbuffer: Handle)
    | BindRenderbuffer(rbo: Option<Handle>)
    | RenderbufferStorage(storage: int, width: nat, height: nat)
    | FramebufferRenderbuffer(attachment: int, renderbufferAttached: Handle)
    | CheckFramebufferStatus
    | DeleteTexture(deleted: Handle)
    | DeleteFramebuffer(deletedFbo: Handle)
    | DeleteRenderbuffer(deletedRbo: Handle)

  /** The cache record kept per object: `__webglTexture`, `__version`, `__webglFramebuffer`, `__webglDepthbuffer`. */
  datatype Props = Props(
    texture: Option<Handle>,
    version: Option<int>,
    framebuffer: Option<Handle>,
    depthbuffer: Option<Handle>)

  const EmptyProps: Props := Props(None, None, None, None)

  /** Every handle the record holds is below `bound`. */
  predicate HandlesBelow(p: Props, bound: Handle) {
    && (p.texture.Some? ==> p.texture.value < bound)
    && (p.framebuffer.Some? ==> p.framebuffer.value < bound)
    && (p.depthbuffer.Some? ==> p.depthbuffer.value < bound)
  }

  /** Calls that only touch textures (create, bind, parameters, uploads, mipmaps). */
  predicate TextureCmd(c: Cmd) {
    || c.CreateTexture? || c.ActiveTexture? || c.BindTexture? || c.PixelStoreFlipY?
    || c.TexParameteri? || c.TexParameterf? || c.TexImage2D? || c.GenerateMipmap?
  }

  /** A stretch of the log made of texture calls only. */
  predicate TextureCmds(cmds: seq<Cmd>) {
    forall c :: c in cmds ==> TextureCmd(c)
  }

  lemma TextureCmdsConcat(a: seq<Cmd>, b: seq<Cmd>)
    requires TextureCmds(a) && TextureCmds(b)
    ensures TextureCmds(a + b)
  {
  }
}
