# Nexus core logic in Dafny

This project models the deterministic core of the Nexus prototype and proves
properties of it. Nexus is a small engine in which natural-language commands
become world patches. A runtime applies those patches to a JSON world file,
and a desktop viewer mirrors that file on screen. The pieces modelled are:

- **World-patch runtime** (`runtime/main.py`, module `RuntimeMain`):
  - validating raw patch records (`Patch.from_raw`);
  - applying `spawn_entity`, `move_camera` and `set_light` to the world map (`apply_patch`);
  - the patch loop of `main`;
  - flattening patch files (`load_patches`);
  - choosing patch sources (`discover_patch_files`).
- **Command routers** (`router/commands.py` and its near-copy in `router/server.py`, modules `RouterCommands` and `RouterServer`):
  - text normalisation (module `TextNormalize`);
  - the table lookup that turns a command into patches;
  - the status decision of the `/command` endpoint;
  - what the runtime makes of the router's output.
- **Avatar pose bookkeeping** (`crates/app/avatar.rs`, module `Avatar`):
  - the MoveNet keypoint table and the bone rig;
  - `Pose2D` default and clear, and `PoseApplier::new`;
  - person selection and keypoint slot filling in `update_pose_from_frame`.
- **Neural renderer** (`crates/neural_renderer/src/lib.rs`, module `NeuralRenderer`):
  - the render request built from a world snapshot;
  - the mock backend, which counts frames and summarises each one.
- **Motion compiler** (`crates/motion_compiler/src/lib.rs`, module `MotionCompiler`).
- **Desktop viewer** (`apps/nexus_desktop/src/main.rs`, module `NexusDesktop`):
  - the modification-time gate on the world file;
  - reconciling sprites with snapshot entities by id;
  - the light's effect on the clear colour;
  - the debug HUD;
  - the renderer tick.
- **Frame metrics** (`crates/anchor/src/metrics.rs`, module `Metrics`): the
  counters and accumulators of the metrics state as a state machine over
  nanosecond instants.

Shared modules:

- `Base` holds `Option`, `Result`, saturating subtraction and decimal rendering of naturals.
- `Json` holds JSON values.
- `WorldSnapshot` holds the snapshot the viewer reads. Its definition is not part of this model, so it is built from its uses: entities with an id and optional translation, rotation, scale and colour, plus an optional camera and light.

Numbers carried as payload (coordinates, colours, JSON numbers) are `real`
values and are never inspected beyond equality. File reads, parsing and
clocks are parameters: the model receives what the file system or clock
reported. For the runtime's output it gives the world `main` would write,
or `None` when a patch raises and the exception leaves `main` before the write.

The routers emit `move_entity`, `set_color` and `delete_entity` patches.
`apply_patch` handles none of these three and raises `ValueError` for them.
So a router's output never reaches the world file. When the runtime applies
the `spawn cube` output, the in-memory world gains the cube before the move
patch raises, but that world is never written.
`RouterServer.MoveOutputRejectedByRuntime`,
`RouterServer.SpawnOutputPartlyApplied` and
`RouterServer.RouterOutputNeverWritten` state this hand-off as the code has it.

## Model

| member | source | states |
|---|---|---|
| RuntimeMain.FromRaw | runtime/main.py:35-52 | A record is accepted exactly when it is an object whose `id` and `type` are strings and whose `data` is an object. A non-object raises `TypeError`. The first missing field, checked in the order `id`, `type`, `data`, raises `KeyError` naming it, and this comes before any type check. Otherwise the first mistyped field raises `TypeError` with the source's message. |
| RuntimeMain.FromRawToRaw | runtime/main.py:46-52 | A patch written back as a raw record validates to the same patch. |
| RuntimeMain.ToRawFromRaw | runtime/main.py:38-52 | An accepted record carries exactly the patch's `id`, `type` and `data`; any other keys are ignored. |
| RuntimeMain.SpawnAppendsOne | runtime/main.py:110-114 | `spawn_entity` appends exactly one entity at the end of `entities`, creating the list when absent. Earlier entities and all other world keys are unchanged. |
| RuntimeMain.SpawnedEntityFields | runtime/main.py:111-112 | The spawned entity is `data` plus `id`. Its `id` is `data["id"]` when present, else the patch id, and every other field is `data`'s. |
| RuntimeMain.SpawnOnNonListRaises | runtime/main.py:113-114 | When `entities` is not a list, `spawn_entity` raises `AttributeError` (no `append`) and leaves the world as it was. |
| RuntimeMain.MoveCameraMerges | runtime/main.py:115-117 | `move_camera` overwrites exactly the camera keys present in `data`, keeps all other camera keys and world keys, and creates the camera when absent. |
| RuntimeMain.SetLightMerges | runtime/main.py:118-125 | `set_light` on a string name stores `data` minus `name`, merged over the existing entry with the new keys winning. Other lights and world keys are untouched. |
| RuntimeMain.LightNameDefault | runtime/main.py:119-121 | The light addressed is `data["name"]` if present, else the patch id, and the stored state never contains `name`. |
| RuntimeMain.UnsupportedTypeRaises | runtime/main.py:126-127 | Any other patch type raises `ValueError("Unsupported patch type: <type>")` and leaves the world unmodified. |
| RuntimeMain.RaiseLeavesWorldAlmostUnchanged | runtime/main.py:108-127 | Every raise leaves the world unmodified, except one case: `set_light` on a world without `lighting` has already added an empty `lighting` before it raises. |
| RuntimeMain.ApplyPatch | runtime/main.py:108-127 | A patch returns without raising only when its type is `spawn_entity`, `move_camera` or `set_light`, and then no world key is removed. Each branch is pinned down by `SpawnAppendsOne`, `MoveCameraMerges`, `SetLightMerges` and `UnsupportedTypeRaises`. |
| RuntimeMain.ApplyAll | runtime/main.py:167-169 | Patches apply in order and the first raise ends the loop. When nothing raises, every patch had a supported type and no world key was removed. `SpawnAllAppends` gives the result of a run of spawns. |
| RuntimeMain.WrittenWorld | runtime/main.py:163-173 | `main` writes a world back exactly when no patch raised, and what it writes is the patched world. Any patch of an unsupported type means nothing is written, and a written world keeps every key it had. |
| RuntimeMain.SpawnRunIsWritten | runtime/main.py:163-173 | A run of spawn patches is written back, with one new entity per patch after the existing ones, in patch order. |
| RuntimeMain.MoveCameraIsWritten | runtime/main.py:163-173 | A lone `move_camera` patch is written back, and the written camera holds every key of the patch's data with its value. |
| RuntimeMain.DefaultWorldAcceptsSupportedPatches | runtime/main.py:16-23 | The default world accepts every supported patch kind without raising, given a string light name. |
| RuntimeMain.SpawnAllAppends | runtime/main.py:167-169 | Applying a run of spawn patches in order appends one entity per patch, in patch order, after the existing entities, and nothing raises. |
| RuntimeMain.LoadPatches | runtime/main.py:76-87 | Records are read in file order and then item order. The result is `Ok` exactly when every record validates, and then holds one patch per record. Otherwise the error is the first failing record's. |
| RuntimeMain.FlattenOneFile | runtime/main.py:82-86 | A list payload contributes its items in order; any other payload contributes itself as one record. |
| RuntimeMain.JsonNames | runtime/main.py:136 | The glob keeps exactly the entries ending in `.json`, each at most as often as it occurs. |
| RuntimeMain.SortStrings | runtime/main.py:136 | `sorted` returns the same names, as a permutation, in code-point lexicographic order. |
| RuntimeMain.DiscoverPatchFiles | runtime/main.py:130-138 | Command-line paths are returned as given, in order. Otherwise an existing directory gives its `*.json` files sorted by name. Otherwise the result is empty. |
| RuntimeMain.DiscoveredAreJsonEntries | runtime/main.py:135-136 | Every file found by the directory scan is a `*.json` entry of that directory. |
| TextNormalize.LowerChar | router/commands.py:11 | Lower-casing yields no ASCII upper-case letter and never turns a separator into a non-separator or the reverse. |
| TextNormalize.Words | router/commands.py:11 | `split()` yields non-empty words without separators. |
| TextNormalize.WordsOfJoin | router/commands.py:11 | Splitting words joined with single spaces gives the same words back. |
| TextNormalize.NormalizeIdempotent | router/commands.py:11 | Normalising normalised text changes nothing. |
| TextNormalize.NormalizeIgnoresCase | router/commands.py:11 | Lower-casing first does not change the normalised form. |
| TextNormalize.NormalizedWords | router/server.py:43 | The words of the normalised text are exactly the words of the lower-cased input: normalisation loses only case and spacing. |
| TextNormalize.Normalize | router/commands.py:11 | Lower-cases, splits on whitespace and joins with single spaces. It has no contract of its own; `NormalizeIdempotent`, `NormalizeIgnoresCase` and `NormalizedWords` characterise it. |
| RouterCommands.TextToPatches | router/commands.py:8-76 | The command table of `router/commands.py`. It has no contract of its own; `NonEmptyIffRecognised`, `MoveCommand`, `ColorCommand`, `SpawnCommand`, `DeleteCommand` and `DependsOnlyOnNormalized` characterise it. |
| RouterCommands.OutputIsWellFormed | router/commands.py:24-73 | Every record emitted has a string `id`, a string `type` and an object `data`, so `from_raw` accepts it. |
| RouterCommands.DependsOnlyOnNormalized | router/commands.py:11 | The patches depend only on the normalised text, so case and extra whitespace never matter. |
| RouterCommands.MoveTableIsUnitSteps | router/commands.py:13-20 | The six move phrases map to six distinct steps, each moving one axis by plus or minus 1. |
| RouterCommands.MoveCommand | router/commands.py:22-30 | A move phrase yields exactly one `move_entity` patch for the default entity, carrying its unit step. |
| RouterCommands.ColorCommand | router/commands.py:61-74 | A colour phrase yields exactly one `set_color` patch for the default entity, carrying the mapped colour. |
| RouterCommands.SpawnCommand | router/commands.py:32-50 | `spawn cube` yields `spawn_entity`, `move_entity` and `set_color`, in that order, all for the default entity. |
| RouterCommands.DeleteCommand | router/commands.py:52-59 | `delete cube` yields one `delete_entity` patch for the default entity, with empty data. |
| RouterCommands.SpawnPatchesDecode | router/commands.py:32-50 | The spawn sequence reads back in the runtime as `spawn_entity` with kind `cube`, `move_entity` one unit up, and `set_color` white, all for the given id. |
| RouterCommands.NonEmptyIffRecognised | router/commands.py:22-76 | The result is non-empty exactly for the eleven recognised phrases after normalisation; any other text yields `[]`. |
| RouterCommands.NormalizeOfWords | router/commands.py:11 | Lower-case words joined by single spaces are already normal. |
| RouterCommands.RecognisedPhrasesAreReachable | router/commands.py:13-65 | Every phrase of the table, typed as is, is its own normalised form and yields patches, so no recognised key is unreachable. |
| RouterServer.TextToPatches | router/server.py:36-108 | The server's copy of the command table. It has no contract of its own; `AgreesExceptSpawn` ties it to `RouterCommands.TextToPatches`, and `UnknownYieldsNothing` gives when it is empty. |
| RouterServer.WritePatches | router/server.py:111-120 | Hands back the patches it was given, so `/command` answers with exactly the router's patches. The file write is left out. |
| RouterServer.TablesAgree | router/server.py:45-97 | The server's move and colour tables and default id equal the commands module's. |
| RouterServer.AgreesExceptSpawn | router/server.py:64-82 | The two routers agree on every input except `spawn cube`. There the server emits the spawn sequence for `entity:newcube` and the commands module emits it for the default entity. |
| RouterServer.SpawnSequencesDifferOnlyInId | router/server.py:64-82 | Two spawn sequences read back as the same three patch kinds with the same data, in the same order, and differ only in the entity id. |
| RouterServer.UnknownYieldsNothing | router/server.py:108 | The server yields `[]` exactly for unrecognised text. |
| RouterServer.Command | router/server.py:148-158 | `/command` answers 400 with `{"error": "Unknown command", "patches": []}` exactly when there are no patches. Otherwise it answers 200 with the patch list unchanged. |
| RouterServer.CommandAcceptedIffRecognised | router/server.py:148-155 | A command is accepted exactly when its normalised text is a recognised phrase. |
| RouterServer.MoveOutputRejectedByRuntime | router/server.py:54-62 | A move command's patch loads in the runtime but raises `ValueError` there and leaves the world as it was. |
| RouterServer.SpawnOutputPartlyApplied | router/server.py:64-82 | Applying the `spawn cube` output appends the cube `entity:newcube` to the in-memory world and then stops with `ValueError` at the `move_entity` patch. |
| RouterServer.RouterOutputNeverWritten | router/server.py:36-108 | For every recognised command, the router's output loads into the runtime but `main` writes nothing back, because each output holds a patch type `apply_patch` rejects. |
| Avatar.KeypointIndex | crates/app/avatar.rs:360-381 | The MoveNet name-to-slot table. It has no contract of its own; `KeypointIndexSound`, `KeypointIndexOnto` and `KeypointIndexInjective` characterise it. |
| Avatar.KeypointIndexSound | crates/app/avatar.rs:360-381 | A name is recognised exactly when it is one of the 17 MoveNet names. Its slot is below 17 and is the position of that name in the table. |
| Avatar.KeypointIndexOnto | crates/app/avatar.rs:5 | The table has 17 names and every slot 0..16 is named. |
| Avatar.KeypointIndexInjective | crates/app/avatar.rs:360-381 | No two recognised names share a slot. |
| Avatar.SpawnBones | crates/app/avatar.rs:196-214 | Definitions whose ends do not resolve are skipped, so there are never more bones than definitions. There are as many exactly when every definition resolves. Every bone's two indices are slots below 17. |
| Avatar.SpawnBonesFiltered | crates/app/avatar.rs:196-214 | There is one bone per resolving definition, in order. Bone `i` is the `i`-th resolving definition with its two names replaced by their slots; unresolved definitions leave no gap. |
| Avatar.SpawnBonesPointwise | crates/app/avatar.rs:196-214 | When all definitions resolve, bone `i` is definition `i` with its two names replaced by their slots. |
| Avatar.AllDefinitionsResolve | crates/app/avatar.rs:90-166 | Every start and end name in the bone table is a keypoint name. |
| Avatar.AllBonesSpawn | crates/app/avatar.rs:168-215 | The rig gets all 15 bones, each joining the slots of its two named keypoints. |
| Avatar.DefaultPose | crates/app/avatar.rs:42-50 | The default pose is 1 by 1 with all 17 keypoints empty. |
| Avatar.Clear | crates/app/avatar.rs:52-56 | Clearing empties all 17 keypoints and keeps the size. |
| Avatar.NewApplier | crates/app/avatar.rs:65-73 | A new applier stores the blend factor, with all smoothed slots empty and all confidences 0. |
| Avatar.SelectPerson | crates/app/avatar.rs:235-243 | The chosen person is the first one with id `p0`, else the first one; there is none exactly when there are no persons. |
| Avatar.LastSampleForIsLast | crates/app/avatar.rs:245-252 | A slot holds the sample of the last keypoint naming it, or stays empty when no keypoint names it; unrecognised names touch nothing. |
| Avatar.FillKeypoints | crates/app/avatar.rs:245-252 | The slot-filling loop leaves every slot as the last keypoint naming it decides. |
| Avatar.UpdatePoseFromFrame | crates/app/avatar.rs:218-253 | Keypoints are cleared first. With no frame only that happens. With a frame the size follows it; no persons leaves all slots empty, and otherwise the chosen person's keypoints fill the slots. |
| NeuralRenderer.ErrorMessage | crates/neural_renderer/src/lib.rs:21-27 | Each error displays with its variant's prefix. |
| NeuralRenderer.ErrorMessageInjective | crates/neural_renderer/src/lib.rs:21-27 | The display text determines the variant and its detail. |
| NeuralRenderer.RenderRequestFromWorld | crates/neural_renderer/src/lib.rs:123-147 | The request has the given size. A camera is sent iff the snapshot has one with a translation. A light is sent iff the snapshot has one, defaulting to white and intensity 1. Entities are sent one for one, in order, with ids copied and origin, unit scale and white for missing parts. |
| NeuralRenderer.RequestIgnoresRotationAndKind | crates/neural_renderer/src/lib.rs:136-145 | Entity rotation and kind never influence the request. |
| NeuralRenderer.TestWorldRequest | crates/neural_renderer/src/lib.rs:211-232 | The crate's sample world at 640x480 gives one entity, the camera at (0, 1, 5) and the light (0.1, 0.2, 0.3) at 0.7. |
| NeuralRenderer.NameMatchesKind | crates/neural_renderer/src/lib.rs:72-78 | The mock backend's name and the display of its kind are both `mock`. |
| NeuralRenderer.BuildRendererFromConfig | crates/neural_renderer/src/lib.rs:93-99 | Building from any configuration succeeds with a backend that has rendered no frames. |
| NeuralRenderer.Render | crates/neural_renderer/src/lib.rs:106-116 | Rendering always succeeds and counts exactly one more frame. |
| NeuralRenderer.RenderAllFrames | crates/neural_renderer/src/lib.rs:107-113 | The `i`-th render of a run reports frame `frames + i + 1`, with that request's entity count and size. |
| NeuralRenderer.SummaryFrameInjective | crates/neural_renderer/src/lib.rs:110-113 | Two equal summaries report the same frame number. |
| NeuralRenderer.RunSummariesDistinct | crates/neural_renderer/src/lib.rs:106-116 | No two summaries of one run coincide. |
| NeuralRenderer.FreshRendererCountsFromOne | crates/neural_renderer/src/lib.rs:234-245 | A freshly built renderer reports frames 1, 2, ... and ends with as many frames as requests. |
| MotionCompiler.CompileFromPoseSequence | crates/motion_compiler/src/lib.rs:37-50 | The clip keeps the name and has one frame per pose, in order, with the same time and joints. |
| MotionCompiler.CompileRoundTrip | crates/motion_compiler/src/lib.rs:37-50 | The clip's frames read back as exactly the input poses. |
| MotionCompiler.CompileConcatenates | crates/motion_compiler/src/lib.rs:38-44 | Compiling a joined run gives the two clips' frames joined. |
| MotionCompiler.EmptyRunGivesEmptyClip | crates/motion_compiler/src/lib.rs:79-87 | No poses give a named clip with no frames. |
| NexusDesktop.ReadSnapshot | apps/nexus_desktop/src/main.rs:68-83 | A snapshot is returned exactly when the file exists, is not known to be stale and parses. It is then remembered with the file's time. Otherwise the state is untouched. |
| NexusDesktop.RereadOfUnchangedFileIsNone | apps/nexus_desktop/src/main.rs:72-76 | With modification times, rereading an unchanged file returns nothing. |
| NexusDesktop.NoTimestampAlwaysRereads | apps/nexus_desktop/src/main.rs:70-82 | Without modification times, the same file is read and returned again on every attempt. |
| NexusDesktop.FailedParseIsRetried | apps/nexus_desktop/src/main.rs:78-79 | A failed parse leaves no trace, so a later parseable file with the same time is still read. |
| NexusDesktop.RememberedSnapshotCameFromARead | apps/nexus_desktop/src/main.rs:80-82 | Over any run of reads, the remembered snapshot is the initial one or one a file provided, and once set it stays set. |
| NexusDesktop.EntityMap | apps/nexus_desktop/src/main.rs:188-191 | The map's keys are exactly the on-screen ids, and each maps to a sprite carrying that id. |
| NexusDesktop.EntityMapLastWins | apps/nexus_desktop/src/main.rs:188-191 | For duplicate ids, the last sprite in query order wins. |
| NexusDesktop.Reconcile | apps/nexus_desktop/src/main.rs:193-236 | There is one action per entity. An empty id is skipped. The first entity naming an on-screen id updates that sprite; any other entity spawns one. Exactly the sprites whose id no entity claimed are despawned. Each action equals the reference definition `ActionAt`. |
| NexusDesktop.EarlierDuplicateUnmapped | apps/nexus_desktop/src/main.rs:188-191 | When two sprites share an id, the earlier one is in no map entry, so it is neither updated nor despawned. |
| NexusDesktop.SpritesMatchRenderRequest | apps/nexus_desktop/src/main.rs:198-200 | A sprite's position, scale and colour equal what the render request sends for the same entity. |
| NexusDesktop.ApplyLight | apps/nexus_desktop/src/main.rs:247-256 | A light colour replaces red, green and blue and makes the colour opaque. An intensity sets alpha to `AlphaOf` of it, which `AlphaOfIntensity` shows is a fifth of the intensity held between 0.1 and 1. Without an intensity, alpha is 1 after a new colour and unchanged otherwise. Without a light nothing changes. |
| NexusDesktop.AlphaOfIntensity | apps/nexus_desktop/src/main.rs:252-255 | Alpha is 0.1 up to intensity 0.5, a fifth of the intensity up to 5, and 1 beyond. |
| NexusDesktop.AlphaMonotone | apps/nexus_desktop/src/main.rs:252-255 | A brighter light never gives a lower alpha. |
| NexusDesktop.CaptureRouterCommands | apps/nexus_desktop/src/main.rs:259-266 | The last event's description becomes the last command; no events change nothing. |
| NexusDesktop.RenderHud | apps/nexus_desktop/src/main.rs:273-291 | The command line is white exactly when a command was captured. |
| NexusDesktop.InitialHudTextMatches | apps/nexus_desktop/src/main.rs:141-160 | The HUD's start-up text is what the initial state renders to. |
| NexusDesktop.RenderHudInjective | apps/nexus_desktop/src/main.rs:273-291 | Different HUD states render differently. |
| NexusDesktop.NoneCommandShownLikeNoCommand | apps/nexus_desktop/src/main.rs:273-290 | A command literally named `(none)` shows the same text as no command; only the colour differs. |
| NexusDesktop.UpdateHudText | apps/nexus_desktop/src/main.rs:268-272 | The text is redrawn from the state only when the state changed. |
| NexusDesktop.SyncWorldFile | apps/nexus_desktop/src/main.rs:167-257 | Nothing happens unless the timer fired and a snapshot was read. Then the HUD counts all entities (skipped ones included). The sprites are reconciled against the map of on-screen ids: entity `k`'s action is `ActionAt` of that map, and exactly the sprites of unclaimed ids are despawned. The camera follows the snapshot's camera translation, and the light tints the clear colour. |
| NexusDesktop.RunNeuralRenderer | apps/nexus_desktop/src/main.rs:305-334 | A frame is rendered exactly when the timer fired and a snapshot was ever read. It uses the window size, or 800x600 without a window, and reports the next frame number. |
| Metrics.DefaultState | crates/anchor/src/metrics.rs:40-57 | The initial state starts and last logs at the creation instant, uninitialised, with no pending step and no ticks. |
| Metrics.RenderDuration | crates/anchor/src/metrics.rs:94-99 | Render time is end minus start when both were recorded, 0 when either is missing or end precedes start. |
| Metrics.BeginFrame | crates/anchor/src/metrics.rs:85-139 | The render slot is drained and a new frame starts every time. The first call only initialises, with zero timings. Later calls report the frame just ended and add it to the sums. They log exactly when a second has passed since the last log, then reset the since-log counters but never the tick count. |
| Metrics.MarkRenderStart | crates/anchor/src/metrics.rs:141-146 | A render start is recorded and any old end dropped. |
| Metrics.FinishRenderTimer | crates/anchor/src/metrics.rs:148-152 | Only the render end is recorded. |
| Metrics.AnchorStepStart | crates/anchor/src/metrics.rs:154-156 | Only the pending step start changes. |
| Metrics.AnchorStepEnd | crates/anchor/src/metrics.rs:158-165 | Without a pending start nothing changes. Otherwise the start is cleared, the elapsed time (saturating) is added, and both step counters go up by one. |
| Metrics.Step | crates/anchor/src/metrics.rs:85-165 | One system call as a state change. It has no contract of its own; `StepKeepsInvariant`, `RunKeepsInvariant` and `TotalTickCountsCompletedSteps` state what runs of it preserve and count. |
| Metrics.InitialInvariant | crates/anchor/src/metrics.rs:40-57 | The initial state satisfies the metrics invariant. |
| Metrics.StepKeepsInvariant | crates/anchor/src/metrics.rs:85-165 | Each system call at a later instant keeps the invariant. The invariant: the frame time summed since the last log is at most the time from that log to the current frame start; steps since the last log are at most all ticks; nothing is counted before the first frame; recorded instants are not in the future. |
| Metrics.RunKeepsInvariant | crates/anchor/src/metrics.rs:85-165 | Any run of calls on a clock that never goes back keeps the invariant. |
| Metrics.TotalTickCountsCompletedSteps | crates/anchor/src/metrics.rs:154-165 | The tick count grows by exactly the completed steps: an end without a start counts nothing, and a second start replaces the first. |
| Metrics.RenderStraddlingFrameStartIsLost | crates/anchor/src/metrics.rs:94-99 | From any state, the very first frame included, a frame start between a render's start and end makes that render report 0. |
| Metrics.RenderWithinFrameIsReported | crates/anchor/src/metrics.rs:94-99 | A render completed within a frame is reported at the next frame start. |

## Left out

- File and network I/O, and the prints:
  - `ensure_world_exists`, `write_world`, `read_perception_state` and the perception summary and timing prints of `runtime/main.py`;
  - the file write in `write_patches`;
  - the FastAPI routes other than `/command`;
  - the HTTP poll of the perception plugin.
  The model takes parsed payloads, directory listings and file states as inputs.
- `runtime/tests/test_patches.py`. It expects `apply_patch` to handle `move_entity`, `set_color` and `delete_entity` and to return a boolean. The code takes a `Patch`, returns nothing and raises `ValueError` for those types, and the model follows the code.
- RuntimeMain.FromRaw: the non-object message omits the `received: <class '…'>` suffix, because Python class reprs are not modelled.
- RuntimeMain.ApplyPatch: a `set_light` name that is a number, boolean or null would become a non-string dict key in Python. A string-keyed world cannot hold that, so the model reports `UnmodelledKey` there. Type names in messages are Python's. A JSON number here carries no distinction between int and float, so integer-valued numbers are also named `float`, where Python would say `int`.
- JSON object key order (Python dicts keep insertion order; the model uses maps), and the float values of numbers, which are opaque reals.
- TextNormalize.LowerChar: lower-cases ASCII letters only. Python's Unicode case mapping is not modelled.
- RuntimeMain.SortStrings: sorts the names within one directory by code point. Python sorts full `Path` objects, which orders the same way for entries of one directory.
- Avatar: `apply_pose_to_rig` (bounding box, smoothing, quaternions) is floating-point geometry. The mesh and material setup is engine glue. The frame size is kept as the integer the frame reports, not its `f32` conversion.
- Avatar.UpdatePoseFromFrame: assumes the avatar exists. When the single-entity query fails, the source returns without clearing.
- NexusDesktop: Bevy scheduling, timers (given as a fired/not-fired flag), window size conversion (given as naturals), sprite components and despawn commands are returned as data.
- NexusDesktop.Reconcile: assumes every on-screen sprite has the transform and sprite components, so an update always applies.
- NexusDesktop.SyncWorldFile: assumes the start-up camera exists, so a camera translation always applies.
- NexusDesktop.ApplyLight: uses exact real arithmetic; `f32` rounding is not modelled.
- NeuralRenderer: the Bevy debug overlay and the log line. `u32` sizes and the `usize` frame counter are unbounded naturals, so wrap-around is not modelled.
- Metrics: the `as_secs_f32` and `as_secs_f64` conversions. Timings and sums stay in integer nanoseconds, and the logged averages are exact reals. Counter overflow (`u32`/`u64`) is not modelled. The mutex around the render slot is treated as one sequential record, and a poisoned lock is not modelled.
- Plugin setup (`init_metrics`, `AvatarPlugin`, the desktop `main`) and the placeholder crates.
