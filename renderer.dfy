/**
 * The forward renderer's frame: which passes `render` runs, in which order,
 * and how it consumes the one-shot shadow request.
 *
 * The GL context, the scene graph, the shadow-map pass and the draw itself are
 * opaque here: each call the renderer makes into them is recorded as one
 * `Event` in the renderer's `trace`, so a frame is the sequence of events it
 * appends.
 */
module Renderers {
  import opened Wrappers

  /** A render target as the frame sees it: an identity and whether it carries a texture. */
  datatype Target = Target(id: int, hasTexture: bool)

  /** The calls `render` makes into the scene, the shadow pass and the GL core. */
  datatype Event =
    | UpdateMatrix(scene: int)
    | UpdateLights(scene: int)
    | ShadowPass(scene: int)
    | SetRenderTarget(target: int)
    | Clear(color: bool, depth: bool, stencil: bool)
    | Draw(scene: int, camera: int)
    | UpdateMipmap(target: int)

  /** The renderer's five switches. */
  datatype Flags = Flags(
    shadowAutoUpdate: bool,
    shadowNeedsUpdate: bool,
    matrixAutoUpdate: bool,
    lightsAutoUpdate: bool,
    autoClear: bool)

  /** The target a frame draws into: the one given, or the canvas's back target. */
  function ChosenTarget(renderTarget: Option<Target>, back: Target): (t: Target)
    ensures renderTarget.Some? ==> t == renderTarget.value
    ensures renderTarget.None? ==> t == back
  {
    renderTarget.GetOr(back)
  }

  /** The position of each kind of event in a frame. */
  function Stage(e: Event): nat
  {
    match e
    case UpdateMatrix(_) => 0
    case UpdateLights(_) => 1
    case ShadowPass(_) => 2
    case SetRenderTarget(_) => 3
    case Clear(_, _, _) => 4
    case Draw(_, _) => 5
    case UpdateMipmap(_) => 6
  }

  /** `[e]` when `c` holds, nothing otherwise: a call guarded by a condition. */
  function When(c: bool, e: Event): seq<Event>
  {
    if c then [e] else []
  }

  /** The updates that precede binding the target: matrices, lights, shadows. */
  function Preparation(f: Flags, scene: int): seq<Event>
  {
    When(f.matrixAutoUpdate, UpdateMatrix(scene))
    + When(f.lightsAutoUpdate, UpdateLights(scene))
    + When(f.shadowAutoUpdate || f.shadowNeedsUpdate, ShadowPass(scene))
  }

  /** The events one frame appends, given the switches at the start of the frame. */
  function FrameEvents(f: Flags, scene: int, camera: int, target: Target, forceClear: bool): seq<Event>
  {
    Preparation(f, scene) + Output(f, scene, camera, target, forceClear)
  }

  /** The calls that follow the updates: bind the target, clear, draw, regenerate mipmaps. */
  function Output(f: Flags, scene: int, camera: int, target: Target, forceClear: bool): seq<Event>
  {
    [SetRenderTarget(target.id)]
    + When(f.autoClear || forceClear, Clear(true, true, true))
    + [Draw(scene, camera)]
    + When(target.hasTexture, UpdateMipmap(target.id))
  }

  /** The stages of `s` strictly increase along it. */
  predicate Ordered(s: seq<Event>)
  {
    forall i, j :: 0 <= i < j < |s| ==> Stage(s[i]) < Stage(s[j])
  }

  /** Every event of `s` comes from a stage before `k`. */
  predicate StagesBelow(s: seq<Event>, k: nat)
  {
    forall i :: 0 <= i < |s| ==> Stage(s[i]) < k
  }

  /** Appending an optional event of stage `k` to an ordered prefix of earlier stages keeps it ordered. */
  lemma OrderedAppend(p: seq<Event>, c: bool, e: Event, k: nat)
    requires Ordered(p) && StagesBelow(p, k) && Stage(e) == k
    ensures Ordered(p + When(c, e)) && StagesBelow(p + When(c, e), k + 1)
  {
    var q := p + When(c, e);
    forall i, j | 0 <= i < j < |q|
      ensures Stage(q[i]) < Stage(q[j])
    {
      if j >= |p| {
        assert q[j] == e;
        assert q[i] == p[i];
      } else {
        assert q[i] == p[i] && q[j] == p[j];
      }
    }
  }

  lemma PreparationOrdered(f: Flags, scene: int)
    ensures Ordered(Preparation(f, scene)) && StagesBelow(Preparation(f, scene), 3)
  {
    var p1 := When(f.matrixAutoUpdate, UpdateMatrix(scene));
    assert [] + p1 == p1;
    OrderedAppend([], f.matrixAutoUpdate, UpdateMatrix(scene), 0);
    var p2 := p1 + When(f.lightsAutoUpdate, UpdateLights(scene));
    OrderedAppend(p1, f.lightsAutoUpdate, UpdateLights(scene), 1);
    OrderedAppend(p2, f.shadowAutoUpdate || f.shadowNeedsUpdate, ShadowPass(scene), 2);
  }

  /** Every event of `s` comes from stage `k` or later. */
  predicate StagesFrom(s: seq<Event>, k: nat)
  {
    forall i :: 0 <= i < |s| ==> k <= Stage(s[i])
  }

  /** An ordered run of earlier stages followed by an ordered run of later stages is ordered. */
  lemma OrderedConcat(p: seq<Event>, q: seq<Event>, k: nat)
    requires Ordered(p) && StagesBelow(p, k) && Ordered(q) && StagesFrom(q, k)
    ensures Ordered(p + q)
  {
    var r := p + q;
    forall i, j | 0 <= i < j < |r|
      ensures Stage(r[i]) < Stage(r[j])
    {
      if j < |p| {
        assert r[i] == p[i] && r[j] == p[j];
      } else if i < |p| {
        assert r[i] == p[i] && r[j] == q[j - |p|];
      } else {
        assert r[i] == q[i - |p|] && r[j] == q[j - |p|];
      }
    }
  }

  lemma OutputOrdered(f: Flags, scene: int, camera: int, target: Target, forceClear: bool)
    ensures Ordered(Output(f, scene, camera, target, forceClear))
    ensures StagesFrom(Output(f, scene, camera, target, forceClear), 3)
  {
    var p4 := [SetRenderTarget(target.id)];
    var p5 := p4 + When(f.autoClear || forceClear, Clear(true, true, true));
    OrderedAppend(p4, f.autoClear || forceClear, Clear(true, true, true), 4);
    assert When(true, Draw(scene, camera)) == [Draw(scene, camera)];
    var p6 := p5 + [Draw(scene, camera)];
    OrderedAppend(p5, true, Draw(scene, camera), 5);
    var p7 := p6 + When(target.hasTexture, UpdateMipmap(target.id));
    OrderedAppend(p6, target.hasTexture, UpdateMipmap(target.id), 6);
    assert p7 == Output(f, scene, camera, target, forceClear);
    forall i | 0 <= i < |p7|
      ensures 3 <= Stage(p7[i])
    {
      assert p7[i] in p7;
    }
  }

  /** Each kind of event occurs at most once in a frame, and always in the fixed order. */
  lemma FrameOrdered(f: Flags, scene: int, camera: int, target: Target, forceClear: bool)
    ensures Ordered(FrameEvents(f, scene, camera, target, forceClear))
  {
    PreparationOrdered(f, scene);
    OutputOrdered(f, scene, camera, target, forceClear);
    OrderedConcat(Preparation(f, scene), Output(f, scene, camera, target, forceClear), 3);
  }

  /** The scene's matrices are updated in a frame exactly when `matrixAutoUpdate` is set. */
  lemma FrameUpdatesMatrixIff(f: Flags, scene: int, camera: int, target: Target, forceClear: bool)
    ensures UpdateMatrix(scene) in FrameEvents(f, scene, camera, target, forceClear) <==> f.matrixAutoUpdate
  {
  }

  /** The scene's lights are updated in a frame exactly when `lightsAutoUpdate` is set. */
  lemma FrameUpdatesLightsIff(f: Flags, scene: int, camera: int, target: Target, forceClear: bool)
    ensures UpdateLights(scene) in FrameEvents(f, scene, camera, target, forceClear) <==> f.lightsAutoUpdate
  {
  }

  /** The shadow pass runs exactly when shadows update automatically or an update was requested. */
  lemma FrameShadowPassIff(f: Flags, scene: int, camera: int, target: Target, forceClear: bool)
    ensures ShadowPass(scene) in FrameEvents(f, scene, camera, target, forceClear)
            <==> f.shadowAutoUpdate || f.shadowNeedsUpdate
  {
  }

  /** All three buffers are cleared exactly when `autoClear` is set or the caller forces it; no other clear is issued. */
  lemma FrameClearIff(f: Flags, scene: int, camera: int, target: Target, forceClear: bool)
    ensures Clear(true, true, true) in FrameEvents(f, scene, camera, target, forceClear)
            <==> f.autoClear || forceClear
    ensures forall e :: e in FrameEvents(f, scene, camera, target, forceClear) && e.Clear? ==> e == Clear(true, true, true)
  {
  }

  /**
   * Exactly one render target is bound, and the draw goes to it: the mipmaps
   * of that target are regenerated, after the draw, exactly when it has a
   * texture.
   */
  lemma FrameTargetAndMipmap(f: Flags, scene: int, camera: int, target: Target, forceClear: bool)
    ensures var ev := FrameEvents(f, scene, camera, target, forceClear);
      && (forall e :: e in ev && e.SetRenderTarget? ==> e.target == target.id)
      && (UpdateMipmap(target.id) in ev <==> target.hasTexture)
      && (forall e :: e in ev && e.UpdateMipmap? ==> e.target == target.id)
      && (target.hasTexture ==> ev[|ev| - 1] == UpdateMipmap(target.id) && ev[|ev| - 2] == Draw(scene, camera))
      && (!target.hasTexture ==> ev[|ev| - 1] == Draw(scene, camera))
  {
  }

  lemma AppendAssoc(s: seq<Event>, t: seq<Event>, u: seq<Event>)
    ensures s + (t + u) == s + t + u
  {
  }

  class Renderer {
    /** The canvas's own target, used when `render` is given none. */
    const backRenderTarget: Target

    var shadowAutoUpdate: bool
    var shadowNeedsUpdate: bool
    var matrixAutoUpdate: bool
    var lightsAutoUpdate: bool
    var autoClear: bool

    /** Every call made into the scene, the shadow pass and the GL core, oldest first. */
    var trace: seq<Event>

    function Switches(): Flags
      reads this
    {
      Flags(shadowAutoUpdate, shadowNeedsUpdate, matrixAutoUpdate, lightsAutoUpdate, autoClear)
    }

    /** A renderer for a canvas whose back target is `back`, with the default switches. */
    constructor (back: Target)
      ensures backRenderTarget == back
      ensures shadowAutoUpdate && !shadowNeedsUpdate
      ensures matrixAutoUpdate && lightsAutoUpdate && autoClear
      ensures trace == []
    {
      backRenderTarget := back;
      shadowAutoUpdate := true;
      shadowNeedsUpdate := false;
      matrixAutoUpdate := true;
      lightsAutoUpdate := true;
      autoClear := true;
      trace := [];
    }

    /**
     * Renders `scene` through `camera` into `renderTarget`, or into the back
     * target when none is given.
     */
    method Render(scene: int, camera: int, renderTarget: Option<Target>, forceClear: bool)
      modifies this`shadowNeedsUpdate, this`trace
      ensures trace == old(trace) + FrameEvents(old(Switches()), scene, camera,
                                                ChosenTarget(renderTarget, backRenderTarget), forceClear)
      ensures Switches() == old(Switches()).(shadowNeedsUpdate := false)
    {
      ghost var f := Switches();
      ghost var start := trace;
      Prepare(scene);
      ghost var prepared := trace;
      var target := renderTarget.GetOr(backRenderTarget);
      DrawInto(scene, camera, target, forceClear);
      assert trace == start + Preparation(f, scene) + Output(f, scene, camera, target, forceClear);
      AppendAssoc(start, Preparation(f, scene), Output(f, scene, camera, target, forceClear));
    }

    /** The scene and shadow updates that open a frame; a pending shadow request is consumed. */
    method Prepare(scene: int)
      modifies this`shadowNeedsUpdate, this`trace
      ensures trace == old(trace) + Preparation(old(Switches()), scene)
      ensures Switches() == old(Switches()).(shadowNeedsUpdate := false)
    {
      ghost var f := Switches();
      ghost var start := trace;
      if matrixAutoUpdate {
        trace := trace + [UpdateMatrix(scene)];
      }
      assert trace == start + When(f.matrixAutoUpdate, UpdateMatrix(scene));
      if lightsAutoUpdate {
        trace := trace + [UpdateLights(scene)];
      }
      ghost var a := When(f.matrixAutoUpdate, UpdateMatrix(scene));
      ghost var b := When(f.lightsAutoUpdate, UpdateLights(scene));
      assert trace == start + a + b;
      if shadowAutoUpdate || shadowNeedsUpdate {
        trace := trace + [ShadowPass(scene)];
        shadowNeedsUpdate := false;
      }
      ghost var c := When(f.shadowAutoUpdate || f.shadowNeedsUpdate, ShadowPass(scene));
      assert trace == start + a + b + c;
      assert a + b + c == Preparation(f, scene);
      AppendAssoc(start, a + b, c);
      AppendAssoc(start, a, b);
    }

    /** Binding the target, clearing, drawing and regenerating the target's mipmaps. */
    method DrawInto(scene: int, camera: int, target: Target, forceClear: bool)
      modifies this`trace
      ensures trace == old(trace) + Output(Switches(), scene, camera, target, forceClear)
    {
      ghost var start := trace;
      trace := trace + [SetRenderTarget(target.id)];
      if autoClear || forceClear {
        trace := trace + [Clear(true, true, true)];
      }
      ghost var a := [SetRenderTarget(target.id)];
      ghost var b := When(autoClear || forceClear, Clear(true, true, true));
      assert trace == start + a + b;
      trace := trace + [Draw(scene, camera)];
      if target.hasTexture {
        trace := trace + [UpdateMipmap(target.id)];
      }
      ghost var c := [Draw(scene, camera)];
      ghost var d := When(target.hasTexture, UpdateMipmap(target.id));
      assert trace == start + a + b + c + d;
      assert a + b + c + d == Output(Switches(), scene, camera, target, forceClear);
      AppendAssoc(start, a + b + c, d);
      AppendAssoc(start, a + b, c);
      AppendAssoc(start, a, b);
    }
  }

  /**
   * A shadow update requested with `shadowNeedsUpdate` is honoured by the next
   * frame and only by it: the frame after that runs the shadow pass only if
   * shadows update automatically.
   */
  lemma ShadowRequestConsumedOnce(f: Flags, scene: int, camera: int, target: Target, forceClear: bool)
    requires f.shadowNeedsUpdate && !f.shadowAutoUpdate
    ensures ShadowPass(scene) in FrameEvents(f, scene, camera, target, forceClear)
    ensures ShadowPass(scene) !in FrameEvents(f.(shadowNeedsUpdate := false), scene, camera, target, forceClear)
  {
    FrameShadowPassIff(f, scene, camera, target, forceClear);
    FrameShadowPassIff(f.(shadowNeedsUpdate := false), scene, camera, target, forceClear);
  }
}
