/** The neural renderer abstraction: a render request built from a world
    snapshot, and the mock backend, which counts the frames it renders and
    reports each as a one-line summary. */
module NeuralRenderer {
  import opened Base
  import opened WorldSnapshot

  datatype RenderError = UnsupportedBackend(backend: string) | Failed(reason: string)

  const UnsupportedPrefix := "unsupported backend: "
  const FailedPrefix := "rendering failed: "

  /** The error's display text. */
  function ErrorMessage(e: RenderError): (m: string)
    ensures e.UnsupportedBackend? ==> |m| >= |UnsupportedPrefix| && m[..|UnsupportedPrefix|] == UnsupportedPrefix
    ensures e.Failed? ==> |m| >= |FailedPrefix| && m[..|FailedPrefix|] == FailedPrefix
  {
    match e
    case UnsupportedBackend(b) => UnsupportedPrefix + b
    case Failed(r) => FailedPrefix + r
  }

  /** The display text tells the variant and its detail apart. */
  lemma ErrorMessageInjective(e1: RenderError, e2: RenderError)
    requires ErrorMessage(e1) == ErrorMessage(e2)
    ensures e1 == e2
  {
    var m := ErrorMessage(e1);
    if e1.UnsupportedBackend? && e2.UnsupportedBackend? {
      assert e1.backend == m[|UnsupportedPrefix|..];
      assert e2.backend == m[|UnsupportedPrefix|..];
    } else if e1.Failed? && e2.Failed? {
      assert e1.reason == m[|FailedPrefix|..];
      assert e2.reason == m[|FailedPrefix|..];
    } else {
      ErrorMessageHead(e1);
      ErrorMessageHead(e2);
    }
  }

  /** The first letter of the display text gives the variant away. */
  lemma ErrorMessageHead(e: RenderError)
    ensures |ErrorMessage(e)| > 0
    ensures ErrorMessage(e)[0] == if e.UnsupportedBackend? then 'u' else 'r'
  {
    var m := ErrorMessage(e);
    if e.UnsupportedBackend? {
      assert m[0] == m[..|UnsupportedPrefix|][0] == UnsupportedPrefix[0];
    } else {
      assert m[0] == m[..|FailedPrefix|][0] == FailedPrefix[0];
    }
  }

  datatype RenderCamera = RenderCamera(translation: Vec3)
  datatype RenderLight = RenderLight(color: Vec3, intensity: real)
  datatype RenderEntity = RenderEntity(id: string, translation: Vec3, scale: Vec3, color: Vec3)

  datatype RenderRequest = RenderRequest(
    width: nat,
    height: nat,
    camera: Option<RenderCamera>,
    light: Option<RenderLight>,
    entities: seq<RenderEntity>)

  datatype RenderOutput = RenderOutput(summary: string)

  // ---------------------------------------------------------------------------
  // Request from a world snapshot
  // ---------------------------------------------------------------------------

  function RenderEntityOf(e: WorldEntity): RenderEntity {
    RenderEntity(e.id, TranslationOf(e), ScaleOf(e), ColorOf(e))
  }

  function RenderLightOf(l: Light): RenderLight {
    RenderLight(l.color.UnwrapOr(Ones), l.intensity.UnwrapOr(1.0))
  }

  /** `render_request_from_world`. */
  function RenderRequestFromWorld(world: Snapshot, width: nat, height: nat): (r: RenderRequest)
    ensures r.width == width && r.height == height
    // a camera is sent exactly when the snapshot has one with a translation
    ensures r.camera.Some? <==> world.camera.Some? && world.camera.value.translation.Some?
    ensures r.camera.Some? ==> r.camera.value.translation == world.camera.value.translation.value
    // a light is sent exactly when the snapshot has one; white and unit
    // intensity fill in its missing parts
    ensures r.light.Some? <==> world.light.Some?
    ensures r.light.Some? ==>
      && (world.light.value.color.Some? ==> r.light.value.color == world.light.value.color.value)
      && (world.light.value.color.None? ==> r.light.value.color == Ones)
      && (world.light.value.intensity.Some? ==> r.light.value.intensity == world.light.value.intensity.value)
      && (world.light.value.intensity.None? ==> r.light.value.intensity == 1.0)
    // one entity per snapshot entity, in order, none skipped
    ensures |r.entities| == |world.entities|
    ensures forall i :: 0 <= i < |world.entities| ==>
      var e := world.entities[i];
      && r.entities[i].id == e.id
      && (e.transform.translation.Some? ==> r.entities[i].translation == e.transform.translation.value)
      && (e.transform.translation.None? ==> r.entities[i].translation == Origin)
      && (e.transform.scale.Some? ==> r.entities[i].scale == e.transform.scale.value)
      && (e.transform.scale.None? ==> r.entities[i].scale == Ones)
      && (e.material.color.Some? ==> r.entities[i].color == e.material.color.value)
      && (e.material.color.None? ==> r.entities[i].color == Ones)
  {
    var camera :=
      if world.camera.Some? && world.camera.value.translation.Some?
      then Some(RenderCamera(world.camera.value.translation.value))
      else None;
    var light := if world.light.Some? then Some(RenderLightOf(world.light.value)) else None;
    RenderRequest(width, height, camera, light,
      seq(|world.entities|, i requires 0 <= i < |world.entities| => RenderEntityOf(world.entities[i])))
  }

  /** Rotation and kind never reach the renderer: two snapshots that differ
      only there give the same request. */
  lemma RequestIgnoresRotationAndKind(a: Snapshot, b: Snapshot, width: nat, height: nat)
    requires a.camera == b.camera && a.light == b.light
    requires |a.entities| == |b.entities|
    requires forall i :: 0 <= i < |a.entities| ==>
      && a.entities[i].id == b.entities[i].id
      && a.entities[i].transform.translation == b.entities[i].transform.translation
      && a.entities[i].transform.scale == b.entities[i].transform.scale
      && a.entities[i].material == b.entities[i].material
    ensures RenderRequestFromWorld(a, width, height) == RenderRequestFromWorld(b, width, height)
  {
    var ra := RenderRequestFromWorld(a, width, height);
    var rb := RenderRequestFromWorld(b, width, height);
    assert ra.entities == rb.entities;
  }

  /** The world of the crate's own request test. */
  function TestWorld(): Snapshot {
    Snapshot(
      [WorldEntity("a", Some("sprite"),
        TransformData(Some(Vec3(1.0, 2.0, 3.0)), None, Some(Vec3(2.0, 2.0, 1.0))),
        MaterialData(Some(Vec3(0.2, 0.3, 0.4))))],
      Some(Camera(Some(Vec3(0.0, 1.0, 5.0)))),
      Some(Light(Some(Vec3(0.1, 0.2, 0.3)), Some(0.7))))
  }

  lemma TestWorldRequest()
    ensures var r := RenderRequestFromWorld(TestWorld(), 640, 480);
      && r.width == 640 && r.height == 480
      && |r.entities| == 1
      && r.camera == Some(RenderCamera(Vec3(0.0, 1.0, 5.0)))
      && r.light == Some(RenderLight(Vec3(0.1, 0.2, 0.3), 0.7))
  {
  }

  // ---------------------------------------------------------------------------
  // Backends
  // ---------------------------------------------------------------------------

  datatype BackendKind = Mock

  /** The backend kind's display text. */
  function BackendKindName(k: BackendKind): string {
    match k
    case Mock => "mock"
  }

  datatype RendererConfig = RendererConfig(backend: BackendKind)

  /** The default configuration selects the mock backend. */
  const DefaultConfig := RendererConfig(Mock)

  /** The mock backend; its only state is the number of frames rendered. */
  datatype MockRenderer = MockRenderer(renderedFrames: nat)

  /** The mock backend's `name`. */
  function Name(m: MockRenderer): string {
    "mock"
  }

  /** The backend reports the same name its kind displays as. */
  lemma NameMatchesKind(m: MockRenderer)
    ensures Name(m) == BackendKindName(Mock) == "mock"
  {
  }

  /** `build_renderer_from_config`: every configured kind yields a fresh
      backend. */
  function BuildRendererFromConfig(config: RendererConfig): (r: Result<MockRenderer, RenderError>)
    ensures r.Ok? && r.value.renderedFrames == 0
  {
    match config.backend
    case Mock => Ok(MockRenderer(0))
  }

  const FramePrefix := "[MockRenderer] frame "

  /** The summary after the frame number: `": {count} entities at {w}x{h}"`. */
  function SummaryTail(entityCount: nat, width: nat, height: nat): (t: string)
    ensures |t| > 0 && t[0] == ':'
  {
    ": " + NatToString(entityCount) + " entities at " + NatToString(width) + "x" + NatToString(height)
  }

  function Summary(frame: nat, entityCount: nat, width: nat, height: nat): string {
    FramePrefix + (NatToString(frame) + SummaryTail(entityCount, width, height))
  }

  /** `MockRenderer::render`: count the frame, then summarise the request. */
  function Render(m: MockRenderer, request: RenderRequest): (r: (MockRenderer, Result<RenderOutput, RenderError>))
    ensures r.0.renderedFrames == m.renderedFrames + 1
    ensures r.1.Ok?
  {
    var n := m.renderedFrames + 1;
    (MockRenderer(n), Ok(RenderOutput(Summary(n, |request.entities|, request.width, request.height))))
  }

  /** Rendering the requests one after another. */
  function RenderAll(m: MockRenderer, requests: seq<RenderRequest>): (r: (MockRenderer, seq<RenderOutput>))
    ensures r.0.renderedFrames == m.renderedFrames + |requests|
    ensures |r.1| == |requests|
    decreases |requests|
  {
    if |requests| == 0 then (m, [])
    else
      var step := Render(m, requests[0]);
      var rest := RenderAll(step.0, requests[1..]);
      (rest.0, [step.1.value] + rest.1)
  }

  /** A run renders its first request, then the rest from the next count. */
  lemma RenderAllStep(m: MockRenderer, requests: seq<RenderRequest>)
    requires |requests| > 0
    ensures var step := Render(m, requests[0]);
      RenderAll(m, requests).1 == [step.1.value] + RenderAll(step.0, requests[1..]).1
  {
  }

  /** The `i`-th render of a run reports frame `frames + i + 1`, together with
      that request's entity count and size. */
  lemma {:induction false} RenderAllFrames(m: MockRenderer, requests: seq<RenderRequest>)
    ensures forall i :: 0 <= i < |requests| ==>
      RenderAll(m, requests).1[i].summary
        == Summary(m.renderedFrames + i + 1, |requests[i].entities|, requests[i].width, requests[i].height)
    decreases |requests|
  {
    if |requests| > 0 {
      var step := Render(m, requests[0]);
      var rest := requests[1..];
      RenderAllFrames(step.0, rest);
      RenderAllStep(m, requests);
      var out := RenderAll(m, requests).1;
      forall i | 0 <= i < |requests|
        ensures out[i].summary
          == Summary(m.renderedFrames + i + 1, |requests[i].entities|, requests[i].width, requests[i].height)
      {
        if i > 0 {
          assert out[i] == RenderAll(step.0, rest).1[i - 1];
          assert rest[i - 1] == requests[i];
        }
      }
    }
  }

  /** Two digit strings each followed by a non-digit cannot hide one inside
      the other. */
  lemma DigitPrefixUnique(a: string, x: string, b: string, y: string)
    requires AllDigits(a) && AllDigits(b)
    requires |x| > 0 && !IsDigit(x[0]) && |y| > 0 && !IsDigit(y[0])
    requires a + x == b + y
    ensures a == b
  {
    if |a| == |b| {
      assert a == (a + x)[..|a|];
      assert b == (b + y)[..|b|];
    } else if |a| < |b| {
      DigitUnderShorter(a, x, b, y);
    } else {
      DigitUnderShorter(b, y, a, x);
    }
  }

  /** Where the shorter digit string ends, the longer one still has a digit. */
  lemma DigitUnderShorter(a: string, x: string, b: string, y: string)
    requires AllDigits(b) && |a| < |b| && |x| > 0
    requires a + x == b + y
    ensures IsDigit(x[0])
  {
    assert x[0] == (a + x)[|a|];
    assert (b + y)[|a|] == b[|a|];
  }

  lemma StripPrefix(p: string, u: string, v: string)
    requires p + u == p + v
    ensures u == v
  {
    assert u == (p + u)[|p|..];
    assert v == (p + v)[|p|..];
  }

  /** A summary names its frame unambiguously. */
  lemma SummaryFrameInjective(f1: nat, c1: nat, w1: nat, h1: nat, f2: nat, c2: nat, w2: nat, h2: nat)
    requires Summary(f1, c1, w1, h1) == Summary(f2, c2, w2, h2)
    ensures f1 == f2
  {
    var t1 := SummaryTail(c1, w1, h1);
    var t2 := SummaryTail(c2, w2, h2);
    var a := NatToString(f1);
    var b := NatToString(f2);
    StripPrefix(FramePrefix, a + t1, b + t2);
    DigitPrefixUnique(a, t1, b, t2);
    NatToStringInjective(f1, f2);
  }

  /** Every frame of a run is reported under its own number, so no two
      summaries of the run coincide. */
  lemma RunSummariesDistinct(m: MockRenderer, requests: seq<RenderRequest>, i: nat, j: nat)
    requires i < j < |requests|
    ensures RenderAll(m, requests).1[i].summary != RenderAll(m, requests).1[j].summary
  {
    RenderAllFrames(m, requests);
    var out := RenderAll(m, requests).1;
    var a := m.renderedFrames + i + 1;
    var b := m.renderedFrames + j + 1;
    assert out[i].summary == Summary(a, |requests[i].entities|, requests[i].width, requests[i].height);
    assert out[j].summary == Summary(b, |requests[j].entities|, requests[j].width, requests[j].height);
    if out[i].summary == out[j].summary {
      SummaryFrameInjective(
        a, |requests[i].entities|, requests[i].width, requests[i].height,
        b, |requests[j].entities|, requests[j].width, requests[j].height);
    }
  }

  /** A freshly built renderer numbers its frames from one. */
  lemma FreshRendererCountsFromOne(requests: seq<RenderRequest>)
    ensures var m := BuildRendererFromConfig(DefaultConfig).value;
      && RenderAll(m, requests).0.renderedFrames == |requests|
      && forall i :: 0 <= i < |requests| ==>
           RenderAll(m, requests).1[i].summary
             == Summary(i + 1, |requests[i].entities|, requests[i].width, requests[i].height)
  {
    RenderAllFrames(BuildRendererFromConfig(DefaultConfig).value, requests);
  }
}
