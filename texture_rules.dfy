/**
 * The pure decisions of the texture binder (WebGLTexture.js): the power-of-two
 * test, when the legacy tier forces a fallback and what it produces, the size
 * arithmetic of the canvas resizes, the draw-buffer range test and the order in
 * which mip levels are uploaded.
 */
module TextureRules {
  import opened Wrappers
  import opened GL

  /* ---------- powers of two ---------- */

  function Pow2(k: nat): (r: nat)
    ensures r >= 1
  {
    if k == 0 then 1 else 2 * Pow2(k - 1)
  }

  /** `isPowerOfTwo` of base.js, computed by halving; `IsPowerOfTwoExact` shows it means n = 2^k. */
  predicate IsPowerOfTwo(n: int)
    decreases if n < 0 then 0 else n
  {
    n >= 1 && (n == 1 || (n % 2 == 0 && IsPowerOfTwo(n / 2)))
  }

  lemma {:induction false} PowerOfTwoHasExponent(n: int) returns (k: nat)
    requires IsPowerOfTwo(n)
    ensures n == Pow2(k)
    decreases n
  {
    if n == 1 {
      k := 0;
    } else {
      var j := PowerOfTwoHasExponent(n / 2);
      k := j + 1;
    }
  }

  lemma {:induction false} ExponentGivesPowerOfTwo(k: nat)
    ensures IsPowerOfTwo(Pow2(k))
  {
    if k > 0 {
      ExponentGivesPowerOfTwo(k - 1);
      assert Pow2(k) / 2 == Pow2(k - 1);
    }
  }

  /** The computed test agrees with the definition "n = 2^k for some k". */
  lemma IsPowerOfTwoExact(n: int)
    ensures IsPowerOfTwo(n) <==> exists k: nat :: n == Pow2(k)
  {
    if IsPowerOfTwo(n) {
      var k := PowerOfTwoHasExponent(n);
    }
    if exists k: nat :: n == Pow2(k) {
      var k: nat :| n == Pow2(k);
      ExponentGivesPowerOfTwo(k);
    }
  }

  /** `_isPowerOfTwo`: both sides are powers of two (applies to images and render targets). */
  predicate SizeIsPowerOfTwo(width: int, height: int) {
    IsPowerOfTwo(width) && IsPowerOfTwo(height)
  }

  /* ---------- sampling parameters and the legacy fallback ---------- */

  /** The (wrapS, wrapT, magFilter, minFilter, anisotropy) tuple of a texture. */
  datatype Sampling = Sampling(wrapS: int, wrapT: int, magFilter: int, minFilter: int, anisotropy: int)

  /** `textureNeedsPowerOfTwo`: a repeating wrap or a mipmapped minification filter. */
  function TextureNeedsPowerOfTwo(s: Sampling): (r: bool)
    ensures !r <==> s.wrapS == CLAMP_TO_EDGE && s.wrapT == CLAMP_TO_EDGE && (s.minFilter == NEAREST || s.minFilter == LINEAR)
  {
    if s.wrapS != CLAMP_TO_EDGE || s.wrapT != CLAMP_TO_EDGE then true
    else if s.minFilter != NEAREST && s.minFilter != LINEAR then true
    else false
  }

  predicate IsNearestFamily(filter: int) {
    filter == NEAREST || filter == NEAREST_MIPMAP_LINEAR || filter == NEAREST_MIPMAP_NEAREST
  }

  /** `filterFallback`: the nearest family collapses to NEAREST, every other value to LINEAR. */
  function FilterFallback(filter: int): (r: int)
    ensures r == NEAREST <==> IsNearestFamily(filter)
    ensures r == LINEAR <==> !IsNearestFamily(filter)
  {
    if filter == NEAREST || filter == NEAREST_MIPMAP_LINEAR || filter == NEAREST_MIPMAP_NEAREST then NEAREST
    else LINEAR
  }

  /** `getTextureParameters`: the texture's own settings, or the clamped, non-mipmapped fallback. */
  function GetTextureParameters(s: Sampling, needFallback: bool): (r: Sampling)
    ensures !needFallback ==> r == s
    ensures needFallback ==>
      && r.wrapS == CLAMP_TO_EDGE && r.wrapT == CLAMP_TO_EDGE
      && r.magFilter == FilterFallback(s.magFilter) && r.minFilter == FilterFallback(s.minFilter)
      && r.anisotropy == s.anisotropy
  {
    if needFallback then
      s.(wrapS := CLAMP_TO_EDGE, wrapT := CLAMP_TO_EDGE,
         magFilter := FilterFallback(s.magFilter), minFilter := FilterFallback(s.minFilter))
    else s
  }

  /** The fallback always yields parameters a non-power-of-two texture may use. */
  lemma FallbackIsPowerOfTwoFree(s: Sampling)
    ensures !TextureNeedsPowerOfTwo(GetTextureParameters(s, true))
  {
  }

  /** Applying the fallback twice changes nothing more than applying it once. */
  lemma FallbackIdempotent(s: Sampling)
    ensures GetTextureParameters(GetTextureParameters(s, true), true) == GetTextureParameters(s, true)
  {
  }

  /** On a texture already configured for non-power-of-two use, the fallback is the identity. */
  lemma FallbackKeepsCompatibleSampling(s: Sampling)
    requires !TextureNeedsPowerOfTwo(s)
    requires s.magFilter == NEAREST || s.magFilter == LINEAR
    ensures GetTextureParameters(s, true) == s
  {
  }

  /* ---------- image resizing (sizes only) ---------- */

  function Max(a: int, b: int): int { if a >= b then a else b }
  function Min(a: int, b: int): int { if a <= b then a else b }

  /**
   * `clampToMaxSize` on an element image: scale by maxSize / max(width, height)
   * and round each side down, computed exactly over the integers.
   */
  function ClampToMaxSize(image: Image, maxSize: nat): (r: Image)
    ensures image.width <= maxSize && image.height <= maxSize ==> r == image
    ensures r.isElement == image.isElement
  {
    if image.width > maxSize || image.height > maxSize then
      var m := Max(image.width, image.height);
      image.(width := ScaledSide(image.width, maxSize, m), height := ScaledSide(image.height, maxSize, m))
    else image
  }

  /** `Math.floor(side * (maxSize / m))`, computed exactly as `side * maxSize / m`. */
  function ScaledSide(side: nat, maxSize: nat, m: nat): nat
    requires m > 0
  {
    side * maxSize / m
  }

  lemma FloorDivBounds(a: nat, b: nat, m: nat)
    requires m > 0
    ensures ScaledSide(a, b, m) * m <= a * b < (ScaledSide(a, b, m) + 1) * m
  {
  }

  lemma MulLeftMonotone(a: nat, b: nat, c: nat)
    requires a <= b
    ensures a * c <= b * c
  {
  }

  lemma {:induction false} ScaledSideFits(side: nat, maxSize: nat, m: nat)
    requires side <= m && m > 0
    ensures ScaledSide(side, maxSize, m) <= maxSize
    ensures side == m ==> ScaledSide(side, maxSize, m) == maxSize
  {
    var q := ScaledSide(side, maxSize, m);
    FloorDivBounds(side, maxSize, m);
    MulLeftMonotone(side, m, maxSize);
    assert q * m <= maxSize * m;
    if side == m {
      assert side * maxSize == maxSize * m;
    }
  }

  /**
   * An over-size image comes out within the maximum, its larger side exactly at
   * the maximum, and each side is the largest integer not above its exact
   * scaled length (aspect ratio kept up to rounding down).
   */
  lemma ClampedImageFits(image: Image, maxSize: nat)
    requires image.width > maxSize || image.height > maxSize
    ensures var r := ClampToMaxSize(image, maxSize);
      && r.width <= maxSize && r.height <= maxSize
      && Max(r.width, r.height) == maxSize
      && r.width * Max(image.width, image.height) <= image.width * maxSize
      && image.width * maxSize < (r.width + 1) * Max(image.width, image.height)
      && r.height * Max(image.width, image.height) <= image.height * maxSize
      && image.height * maxSize < (r.height + 1) * Max(image.width, image.height)
  {
    var m := Max(image.width, image.height);
    ScaledSideFits(image.width, maxSize, m);
    ScaledSideFits(image.height, maxSize, m);
    FloorDivBounds(image.width, maxSize, m);
    FloorDivBounds(image.height, maxSize, m);
  }

  /**
   * `makePowerOf2` on an element image: each side becomes `nearestPowerOfTwo`
   * of itself. `nearestPowerOfTwo` lives in base.js and stays uninterpreted.
   */
  function MakePowerOf2(image: Image, nearestPowerOfTwo: nat -> nat): (r: Image)
    ensures image.isElement ==> r.width == nearestPowerOfTwo(image.width) && r.height == nearestPowerOfTwo(image.height)
    ensures !image.isElement ==> r == image
  {
    if image.isElement then
      image.(width := nearestPowerOfTwo(image.width), height := nearestPowerOfTwo(image.height))
    else image
  }

  /** What the upload path does to one image before it is uploaded (lines 136-144 and 287-296). */
  function PreparedImage(image: Image, s: Sampling, caps: Capabilities, nearestPowerOfTwo: nat -> nat): Image {
    if image.isElement then
      var clamped := ClampToMaxSize(image, caps.maxTextureSize);
      if TextureNeedsPowerOfTwo(s) && !SizeIsPowerOfTwo(clamped.width, clamped.height) && caps.version < 2
      then MakePowerOf2(clamped, nearestPowerOfTwo)
      else clamped
    else image
  }

  /** The legacy tier cannot sample a non-power-of-two image with repeat or mipmaps. */
  predicate NeedFallback(image: Image, caps: Capabilities) {
    !SizeIsPowerOfTwo(image.width, image.height) && caps.version < 2
  }

  /**
   * When a texture's settings need a power-of-two image, an element image is
   * resized to powers of two first, so the fallback never fires for it.
   */
  lemma ResizeAvoidsFallback(image: Image, s: Sampling, caps: Capabilities, nearestPowerOfTwo: nat -> nat)
    requires image.isElement && TextureNeedsPowerOfTwo(s)
    requires forall n: nat :: IsPowerOfTwo(nearestPowerOfTwo(n))
    ensures !NeedFallback(PreparedImage(image, s, caps, nearestPowerOfTwo), caps)
  {
  }

  /**
   * A non-power-of-two element image within the size limit, on a texture that
   * already clamps and does not mipmap, is uploaded at its own size; the
   * fallback flag is raised but leaves the (valid) sampling untouched.
   */
  lemma CompatibleImageKeptAsIs(image: Image, s: Sampling, caps: Capabilities, nearestPowerOfTwo: nat -> nat)
    requires image.width <= caps.maxTextureSize && image.height <= caps.maxTextureSize
    requires !TextureNeedsPowerOfTwo(s) && (s.magFilter == NEAREST || s.magFilter == LINEAR)
    ensures PreparedImage(image, s, caps, nearestPowerOfTwo) == image
    ensures GetTextureParameters(s, NeedFallback(image, caps)) == s
  {
  }

  /* ---------- draw buffers ---------- */

  /**
   * The range test of WebGLTexture.js:410 as written. The second range reads
   * `0x8CE10`..`0x8CE15`, which are not attachment enums at all.
   */
  predicate DrawBufferCandidate(attachment: int) {
    (attachment <= 0x8CE9 && attachment >= 0x8CE0) || (attachment <= 0x8CE15 && attachment >= 0x8CE10)
  }

  /** COLOR_ATTACHMENTk */
  function ColorAttachment(k: nat): int { COLOR_ATTACHMENT0 + k }

  /** The colour attachment points COLOR_ATTACHMENT0..COLOR_ATTACHMENT15. */
  predicate IsColorAttachment(attachment: int) {
    COLOR_ATTACHMENT0 <= attachment <= COLOR_ATTACHMENT0 + 15
  }

  /** The corrected test accepts exactly the sixteen colour attachment points. */
  lemma IsColorAttachmentExact(attachment: int)
    ensures IsColorAttachment(attachment) <==> exists k: nat :: k < 16 && attachment == ColorAttachment(k)
  {
    if IsColorAttachment(attachment) {
      var k: nat := attachment - COLOR_ATTACHMENT0;
      assert k < 16 && attachment == ColorAttachment(k);
    }
  }

  /** As written, COLOR_ATTACHMENT10 (0x8CEA) is left out of the draw buffers, and 0x8CE10 is let in. */
  lemma DrawBufferCandidateAsWrittenDiffers()
    ensures IsColorAttachment(0x8CEA) && !DrawBufferCandidate(0x8CEA)
    ensures DrawBufferCandidate(0x8CE10) && !IsColorAttachment(0x8CE10)
  {
  }

  /** The `buffers` array as line 410 builds it, with the range test as written. */
  function DrawBufferListAsWritten(points: seq<int>): (r: seq<int>)
    ensures forall x :: x in r ==> x in points && DrawBufferCandidate(x)
  {
    if points == [] then []
    else
      var last := points[|points| - 1];
      DrawBufferListAsWritten(points[..|points| - 1]) + (if DrawBufferCandidate(last) then [last] else [])
  }

  lemma DrawBufferListAsWrittenSnoc(points: seq<int>, p: int)
    ensures DrawBufferListAsWritten(points + [p]) == DrawBufferListAsWritten(points) + (if DrawBufferCandidate(p) then [p] else [])
  {
    assert (points + [p])[..|points|] == points;
  }

  /** As written, an attachment point joins the draw-buffer list exactly when it passes the range test. */
  lemma {:induction false} DrawBufferListAsWrittenMembers(points: seq<int>, x: int)
    ensures x in DrawBufferListAsWritten(points) <==> x in points && DrawBufferCandidate(x)
  {
    if points != [] {
      var init := points[..|points| - 1];
      DrawBufferListAsWrittenMembers(init, x);
      assert points == init + [points[|points| - 1]];
    }
  }

  /** Attachments are visited in ascending order, so the draw-buffer list as written is ascending too. */
  lemma {:induction false} DrawBufferListAsWrittenIncreasing(points: seq<int>)
    requires StrictlyIncreasing(points)
    ensures StrictlyIncreasing(DrawBufferListAsWritten(points))
  {
    if points != [] {
      var init := points[..|points| - 1];
      var last := points[|points| - 1];
      assert StrictlyIncreasing(init);
      DrawBufferListAsWrittenIncreasing(init);
      var front := DrawBufferListAsWritten(init);
      forall i | 0 <= i < |front| ensures front[i] < last {
        DrawBufferListAsWrittenMembers(init, front[i]);
        var k :| 0 <= k < |init| && init[k] == front[i];
      }
      var r := DrawBufferListAsWritten(points);
      assert r == front + (if DrawBufferCandidate(last) then [last] else []);
      forall i, j | 0 <= i < j < |r| ensures r[i] < r[j] {
        if j < |front| {
          assert r[i] == front[i] && r[j] == front[j];
        } else {
          assert r[i] == front[i] && r[j] == last;
        }
      }
    }
  }

  /**
   * A render target with COLOR_ATTACHMENT0 and COLOR_ATTACHMENT10: as written
   * only the first is drawn into, while the corrected list names both.
   */
  lemma EleventhAttachmentNotDrawn()
    ensures DrawBufferListAsWritten([COLOR_ATTACHMENT0, ColorAttachment(10)]) == [COLOR_ATTACHMENT0]
    ensures DrawBufferList([COLOR_ATTACHMENT0, ColorAttachment(10)]) == [COLOR_ATTACHMENT0, ColorAttachment(10)]
  {
    var s := [COLOR_ATTACHMENT0, ColorAttachment(10)];
    assert s[..1] == [COLOR_ATTACHMENT0] && s[..1][..0] == [];
    assert DrawBufferListAsWritten(s[..1]) == [COLOR_ATTACHMENT0];
    assert !DrawBufferCandidate(ColorAttachment(10));
    assert DrawBufferList(s[..1]) == [COLOR_ATTACHMENT0];
  }

  /**
   * The two tests disagree only on COLOR_ATTACHMENT10..15 and on 0x8CE10..0x8CE15,
   * so a target using only the first ten colour attachments (and other
   * attachment points) gets the same draw-buffer list either way.
   */
  lemma {:induction false} AsWrittenAgreesOnFirstTen(points: seq<int>)
    requires forall i :: 0 <= i < |points| ==> !(ColorAttachment(10) <= points[i] <= ColorAttachment(15))
    requires forall i :: 0 <= i < |points| ==> !(0x8CE10 <= points[i] <= 0x8CE15)
    ensures DrawBufferListAsWritten(points) == DrawBufferList(points)
  {
    if points != [] {
      AsWrittenAgreesOnFirstTen(points[..|points| - 1]);
    }
  }

  /** The `buffers` array built by the attachment loop with the corrected test: colour attachments, in iteration order. */
  function DrawBufferList(points: seq<int>): (r: seq<int>)
    ensures |r| <= |points|
  {
    if points == [] then []
    else
      var last := points[|points| - 1];
      DrawBufferList(points[..|points| - 1]) + (if IsColorAttachment(last) then [last] else [])
  }

  lemma DrawBufferListSnoc(points: seq<int>, p: int)
    ensures DrawBufferList(points + [p]) == DrawBufferList(points) + (if IsColorAttachment(p) then [p] else [])
  {
    assert (points + [p])[..|points|] == points;
  }

  /** An attachment point joins the draw-buffer list exactly when it is a colour attachment point. */
  lemma {:induction false} DrawBufferListMembers(points: seq<int>, x: int)
    ensures x in DrawBufferList(points) <==> x in points && IsColorAttachment(x)
  {
    if points != [] {
      var init := points[..|points| - 1];
      DrawBufferListMembers(init, x);
      assert points == init + [points[|points| - 1]];
    }
  }

  predicate StrictlyIncreasing(s: seq<int>) {
    forall i, j :: 0 <= i < j < |s| ==> s[i] < s[j]
  }

  /** Attachments are visited in ascending order, so the draw-buffer list is ascending too. */
  lemma {:induction false} DrawBufferListIncreasing(points: seq<int>)
    requires StrictlyIncreasing(points)
    ensures StrictlyIncreasing(DrawBufferList(points))
  {
    if points != [] {
      var init := points[..|points| - 1];
      var last := points[|points| - 1];
      assert StrictlyIncreasing(init);
      DrawBufferListIncreasing(init);
      var front := DrawBufferList(init);
      forall i | 0 <= i < |front| ensures front[i] < last {
        DrawBufferListMembers(init, front[i]);
        var k :| 0 <= k < |init| && init[k] == front[i];
      }
      var r := DrawBufferList(points);
      assert r == front + (if IsColorAttachment(last) then [last] else []);
      forall i, j | 0 <= i < j < |r| ensures r[i] < r[j] {
        if j < |front| {
          assert r[i] == front[i] && r[j] == front[j];
        } else {
          assert r[i] == front[i] && r[j] == last;
        }
      }
    }
  }

  /** Three colour attachments give exactly those three points, in ascending order. */
  lemma ThreeColorAttachments()
    ensures DrawBufferList([COLOR_ATTACHMENT0, COLOR_ATTACHMENT0 + 1, COLOR_ATTACHMENT0 + 2])
         == [COLOR_ATTACHMENT0, COLOR_ATTACHMENT0 + 1, COLOR_ATTACHMENT0 + 2]
  {
    var s := [COLOR_ATTACHMENT0, COLOR_ATTACHMENT0 + 1, COLOR_ATTACHMENT0 + 2];
    assert s[..2] == [COLOR_ATTACHMENT0, COLOR_ATTACHMENT0 + 1];
    assert s[..2][..1] == [COLOR_ATTACHMENT0];
    assert s[..2][..1][..0] == [];
    assert DrawBufferList(s[..2][..1]) == [COLOR_ATTACHMENT0];
    assert DrawBufferList(s[..2]) == [COLOR_ATTACHMENT0, COLOR_ATTACHMENT0 + 1];
  }

  /* ---------- uploads ---------- */

  /** The pixel type actually passed: WebGL 2 takes its own half-float enum. */
  function EffectivePixelType(pixelType: int, caps: Capabilities): (r: int)
    ensures caps.version >= 2 && pixelType == HALF_FLOAT ==> r == HALF_FLOAT_WEBGL2
    ensures !(caps.version >= 2 && pixelType == HALF_FLOAT) ==> r == pixelType
  {
    if caps.version < 2 then pixelType
    else if pixelType == HALF_FLOAT then HALF_FLOAT_WEBGL2
    else pixelType
  }

  /** The `texParameter*` calls of `setTextureParameters` for an effective parameter tuple. */
  function ParameterCmds(textureType: int, p: Sampling, caps: Capabilities): (r: seq<Cmd>)
    ensures |r| == if caps.anisotropyExt then 5 else 4
    ensures forall c :: c in r ==> c.TexParameteri? || c.TexParameterf?
    ensures caps.anisotropyExt ==> r[4].TexParameterf? && r[4].param <= caps.maxAnisotropy
  {
    [ TexParameteri(textureType, TEXTURE_WRAP_S, p.wrapS),
      TexParameteri(textureType, TEXTURE_WRAP_T, p.wrapT),
      TexParameteri(textureType, TEXTURE_MAG_FILTER, p.magFilter),
      TexParameteri(textureType, TEXTURE_MIN_FILTER, p.minFilter) ]
    + (if caps.anisotropyExt
       then [TexParameterf(textureType, TEXTURE_MAX_ANISOTROPY_EXT, Min(p.anisotropy, caps.maxAnisotropy))]
       else [])
  }

  /** One `texImage2D` per mip level, level i from mipmaps[i], in ascending level order. */
  function LevelUploads(target: int, mipmaps: seq<Image>, pf: PixelFormat): (r: seq<Cmd>)
    ensures |r| == |mipmaps|
    ensures forall c :: c in r ==> c.TexImage2D? && c.target == target
  {
    if mipmaps == [] then []
    else
      var i := |mipmaps| - 1;
      LevelUploads(target, mipmaps[..i], pf) + [TexImage2D(target, i, pf, mipmaps[i].width, mipmaps[i].height)]
  }

  /** Whether the precomputed mip list is uploaded (lines 187 and 199). */
  predicate UsesMipmapList(mipmaps: seq<Image>, needFallback: bool) {
    |mipmaps| > 0 && !needFallback
  }

  /** The uploads of `setTexture2D`: the mip list, or a single level-0 image. */
  function ImageUploads2D(image: Image, mipmaps: seq<Image>, needFallback: bool, pf: PixelFormat): seq<Cmd> {
    if UsesMipmapList(mipmaps, needFallback) then LevelUploads(TEXTURE_2D, mipmaps, pf)
    else [TexImage2D(TEXTURE_2D, 0, pf, image.width, image.height)]
  }

  /** The final `generateMipmap`, issued only when mipmaps are wanted and no fallback is active. */
  function MipmapGeneration(target: int, generateMipmaps: bool, needFallback: bool): seq<Cmd> {
    if generateMipmaps && !needFallback then [GenerateMipmap(target)] else []
  }

  /** The levels of the `texImage2D` calls in a log, in order. */
  function UploadedLevels(cmds: seq<Cmd>): seq<nat> {
    if cmds == [] then []
    else
      var last := cmds[|cmds| - 1];
      UploadedLevels(cmds[..|cmds| - 1]) + (if last.TexImage2D? then [last.level] else [])
  }

  /** [0, 1, ..., n-1] */
  function Iota(n: nat): (r: seq<nat>)
    ensures |r| == n && forall i :: 0 <= i < n ==> r[i] == i
  {
    if n == 0 then [] else Iota(n - 1) + [n - 1]
  }

  lemma {:induction false} LevelUploadsInOrder(target: int, mipmaps: seq<Image>, pf: PixelFormat)
    ensures UploadedLevels(LevelUploads(target, mipmaps, pf)) == Iota(|mipmaps|)
    decreases |mipmaps|
  {
    if mipmaps != [] {
      var i := |mipmaps| - 1;
      var init := LevelUploads(target, mipmaps[..i], pf);
      var cmd := TexImage2D(target, i, pf, mipmaps[i].width, mipmaps[i].height);
      LevelUploadsInOrder(target, mipmaps[..i], pf);
      assert (init + [cmd])[..|init + [cmd]| - 1] == init;
    }
  }

  /**
   * With a non-empty mip list and no fallback, levels 0..n-1 are uploaded in
   * order; otherwise exactly one level-0 upload happens.
   */
  lemma UploadedLevels2D(image: Image, mipmaps: seq<Image>, needFallback: bool, pf: PixelFormat)
    ensures UploadedLevels(ImageUploads2D(image, mipmaps, needFallback, pf))
         == if UsesMipmapList(mipmaps, needFallback) then Iota(|mipmaps|) else [0]
  {
    if UsesMipmapList(mipmaps, needFallback) {
      LevelUploadsInOrder(TEXTURE_2D, mipmaps, pf);
    } else {
      var cmds := [TexImage2D(TEXTURE_2D, 0, pf, image.width, image.height)];
      assert cmds[..0] == [];
    }
  }

  /** The six face uploads of `setTextureCube`, face i to TEXTURE_CUBE_MAP_POSITIVE_X + i. */
  function FaceUploads(faces: seq<Image>, pf: PixelFormat): (r: seq<Cmd>)
    ensures |r| == |faces|
    ensures forall c :: c in r ==> c.TexImage2D?
    ensures forall i :: 0 <= i < |faces| ==>
      r[i] == TexImage2D(TEXTURE_CUBE_MAP_POSITIVE_X + i, 0, pf, faces[i].width, faces[i].height)
  {
    if faces == [] then []
    else
      var i := |faces| - 1;
      FaceUploads(faces[..i], pf) + [TexImage2D(TEXTURE_CUBE_MAP_POSITIVE_X + i, 0, pf, faces[i].width, faces[i].height)]
  }

  /** Every image of a sequence put through `PreparedImage`. */
  function PreparedImages(images: seq<Image>, s: Sampling, caps: Capabilities, nearestPowerOfTwo: nat -> nat): (r: seq<Image>)
    ensures |r| == |images|
    ensures forall i :: 0 <= i < |images| ==> r[i] == PreparedImage(images[i], s, caps, nearestPowerOfTwo)
  {
    if images == [] then []
    else
      var i := |images| - 1;
      PreparedImages(images[..i], s, caps, nearestPowerOfTwo) + [PreparedImage(images[i], s, caps, nearestPowerOfTwo)]
  }

  /** The cube fallback is the OR of the per-face test. */
  predicate AnyNeedsFallback(faces: seq<Image>, caps: Capabilities) {
    exists i :: 0 <= i < |faces| && NeedFallback(faces[i], caps)
  }

  /* ---------- render target depth buffer ---------- */

  /** The renderbuffer format and attachment point for a depth buffer, by stencil flag. */
  function DepthStorage(stencilBuffer: bool): (r: (int, int))
    ensures stencilBuffer <==> r.1 == DEPTH_STENCIL_ATTACHMENT
  {
    if stencilBuffer then (DEPTH_STENCIL, DEPTH_STENCIL_ATTACHMENT) else (DEPTH_COMPONENT16, DEPTH_ATTACHMENT)
  }

  /** The calls that create, size, attach and unbind a depth renderbuffer `rb`. */
  function DepthbufferCmds(rb: Handle, stencilBuffer: bool, width: nat, height: nat): seq<Cmd> {
    var (storage, point) := DepthStorage(stencilBuffer);
    [ CreateRenderbuffer(rb), BindRenderbuffer(Some(rb)), RenderbufferStorage(storage, width, height),
      FramebufferRenderbuffer(point, rb), BindRenderbuffer(None) ]
  }

  /** The draw-buffer call of `setRenderTarget2D`: natively on v2, via the extension on v1, else none. */
  function DrawBufferCmds(buffers: seq<int>, caps: Capabilities): (r: seq<Cmd>)
    ensures |r| <= 1
    ensures |r| == 1 <==> |buffers| > 1 && (caps.version >= 2 || WEBGL_DRAW_BUFFERS in caps.extensions)
    ensures |r| == 1 ==> r[0] == (if caps.version >= 2 then DrawBuffers(buffers) else DrawBuffersWEBGL(buffers))
  {
    if |buffers| > 1 then
      if caps.version >= 2 then [DrawBuffers(buffers)]
      else if WEBGL_DRAW_BUFFERS in caps.extensions then [DrawBuffersWEBGL(buffers)]
      else []
    else []
  }

  /** The condition of `updateRenderTargetMipmap` (lines 529-531). */
  predicate RegeneratesMipmaps(generateMipmaps: bool, minFilter: int, width: nat, height: nat) {
    generateMipmaps && SizeIsPowerOfTwo(width, height) && minFilter != NEAREST && minFilter != LINEAR
  }

  /**
   * A render target whose mip chain is rebuilt has a size a WebGL 1 context
   * accepts without the fallback, and a filter that samples mipmaps.
   */
  lemma RegeneratedMipmapsNeedNoFallback(generateMipmaps: bool, minFilter: int, width: nat, height: nat, caps: Capabilities)
    requires RegeneratesMipmaps(generateMipmaps, minFilter, width, height)
    ensures !NeedFallback(Image(width, height, false, true), caps)
    ensures TextureNeedsPowerOfTwo(Sampling(CLAMP_TO_EDGE, CLAMP_TO_EDGE, LINEAR, minFilter, 1))
  {
  }
}
