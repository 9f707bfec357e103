/** The desktop viewer's per-frame logic: re-reading the world file only when
    it changed, reconciling the sprites on screen with the snapshot's
    entities, tinting the clear colour from the light, the debug HUD, and the
    periodic call into the neural renderer. The engine (scheduling, timers,
    windows, drawing) is not modelled: what a system would do is returned as
    data. */
module NexusDesktop {
  import opened Base
  import opened WorldSnapshot
  import NeuralRenderer

  // ---------------------------------------------------------------------------
  // Reading the world file
  // ---------------------------------------------------------------------------

  /** What the file system shows of the world file on one attempt. `modified`
      is the modification time when the platform reports one; `parsed` is the
      snapshot when the file could be read and parsed. */
  datatype WorldFile = Missing | Present(modified: Option<nat>, parsed: Option<Snapshot>)

  datatype SyncState = SyncState(lastModified: Option<nat>, latestSnapshot: Option<Snapshot>)

  /** `WorldSyncState::new`: nothing read yet. */
  const InitialSync := SyncState(None, None)

  /** The file is known not to be newer than the last snapshot read. */
  predicate Stale(state: SyncState, modified: Option<nat>) {
    state.lastModified.Some? && modified.Some? && modified.value <= state.lastModified.value
  }

  /** `read_snapshot`: the new sync state, and the snapshot when one was
      read. */
  function ReadSnapshot(state: SyncState, file: WorldFile): (r: (SyncState, Option<Snapshot>))
    // a snapshot comes back exactly when the file is there, not known to be
    // stale, and parses
    ensures r.1.Some? <==> file.Present? && !Stale(state, file.modified) && file.parsed.Some?
    // and then it is remembered together with the file's time, which may be
    // none at all
    ensures r.1.Some? ==> r.1 == file.parsed && r.0 == SyncState(file.modified, file.parsed)
    // otherwise nothing is remembered
    ensures r.1.None? ==> r.0 == state
  {
    match file
    case Missing => (state, None)
    case Present(modified, parsed) =>
      if Stale(state, modified) then (state, None)
      else if parsed.None? then (state, None)
      else (SyncState(modified, parsed), parsed)
  }

  /** Reading the same file again right after a successful read yields
      nothing when the platform reports modification times. */
  lemma RereadOfUnchangedFileIsNone(state: SyncState, t: nat, snapshot: Snapshot)
    ensures var file := Present(Some(t), Some(snapshot));
      var first := ReadSnapshot(state, file);
      first.1.Some? ==> ReadSnapshot(first.0, file) == (first.0, None)
  {
  }

  /** Without modification times nothing is ever stale: the same file is
      read and handed out again on every attempt. */
  lemma NoTimestampAlwaysRereads(state: SyncState, snapshot: Snapshot)
    ensures var file := Present(None, Some(snapshot));
      var first := ReadSnapshot(state, file);
      && first == (SyncState(None, Some(snapshot)), Some(snapshot))
      && ReadSnapshot(first.0, file) == first
  {
  }

  /** A file that fails to parse is retried: it leaves no trace, so a later
      parseable version with the same time is still read. */
  lemma FailedParseIsRetried(state: SyncState, t: nat, snapshot: Snapshot)
    requires !Stale(state, Some(t))
    ensures ReadSnapshot(state, Present(Some(t), None)) == (state, None)
    ensures ReadSnapshot(state, Present(Some(t), Some(snapshot))).1 == Some(snapshot)
  {
  }

  /** The sync state after a run of read attempts. */
  function ReadAll(state: SyncState, files: seq<WorldFile>): SyncState
    decreases |files|
  {
    if |files| == 0 then state
    else ReadAll(ReadSnapshot(state, files[0]).0, files[1..])
  }

  /** Over a run of read attempts, the remembered snapshot is the initial one
      or one some file provided, and once a snapshot is remembered there
      always is one. */
  lemma {:induction false} RememberedSnapshotCameFromARead(state: SyncState, files: seq<WorldFile>)
    ensures var last := ReadAll(state, files).latestSnapshot;
      last == state.latestSnapshot || exists i :: 0 <= i < |files| && files[i].Present? && files[i].parsed == last
    ensures state.latestSnapshot.Some? ==> ReadAll(state, files).latestSnapshot.Some?
    decreases |files|
  {
    if |files| > 0 {
      var next := ReadSnapshot(state, files[0]).0;
      RememberedSnapshotCameFromARead(next, files[1..]);
      var last := ReadAll(state, files).latestSnapshot;
      assert ReadAll(state, files) == ReadAll(next, files[1..]);
      if last != next.latestSnapshot {
        var i :| 0 <= i < |files[1..]| && files[1..][i].Present? && files[1..][i].parsed == last;
        assert files[i + 1] == files[1..][i];
      } else if next != state {
        assert files[0].Present? && files[0].parsed == last;
      }
    }
  }

  // ---------------------------------------------------------------------------
  // Reconciling sprites with the snapshot
  // ---------------------------------------------------------------------------

  /** An engine entity handle. */
  type Handle = nat

  /** A sprite already on screen: its handle and the world id it shows. */
  datatype Tagged = Tagged(handle: Handle, id: string)

  /** The id-to-sprite map built from the sprites on screen, in query order:
      when two sprites carry the same id, the later one wins. */
  function EntityMap(existing: seq<Tagged>): (m: map<string, Handle>)
    ensures m.Keys == set i | 0 <= i < |existing| :: existing[i].id
    ensures forall id :: id in m ==> exists i :: 0 <= i < |existing| && existing[i] == Tagged(m[id], id)
    decreases |existing|
  {
    if |existing| == 0 then map[]
    else
      var last := existing[|existing| - 1];
      var prefix := existing[..|existing| - 1];
      var m := EntityMap(prefix);
      assert forall i :: 0 <= i < |prefix| ==> prefix[i] == existing[i];
      m[last.id := last.handle]
  }

  /** Each id maps to the handle of the last sprite carrying it. */
  lemma {:induction false} EntityMapLastWins(existing: seq<Tagged>, i: nat)
    requires i < |existing|
    requires forall j :: i < j < |existing| ==> existing[j].id != existing[i].id
    ensures existing[i].id in EntityMap(existing)
    ensures EntityMap(existing)[existing[i].id] == existing[i].handle
    decreases |existing|
  {
    if i < |existing| - 1 {
      var prefix := existing[..|existing| - 1];
      assert prefix[i] == existing[i];
      EntityMapLastWins(prefix, i);
    }
  }

  /** Where a sprite is drawn: position, scale and colour. */
  datatype Placement = Placement(translation: Vec3, scale: Vec3, color: Vec3)

  function PlacementOf(e: WorldEntity): Placement {
    Placement(TranslationOf(e), ScaleOf(e), ColorOf(e))
  }

  /** What happens for one snapshot entity. */
  datatype Action = Skip | Update(handle: Handle, placement: Placement) | Spawn(id: string, placement: Placement)

  /** Some entity before position `i` already claimed `id`. Entities with an
      empty id claim nothing. */
  predicate ClaimedBefore(entities: seq<WorldEntity>, i: nat, id: string)
    requires i <= |entities|
  {
    id != "" && exists j :: 0 <= j < i && entities[j].id == id
  }

  /** Position `i` claims its own id and nothing else. */
  lemma ClaimedStep(entities: seq<WorldEntity>, i: nat)
    requires i < |entities|
    ensures forall id :: ClaimedBefore(entities, i + 1, id) <==> ClaimedBefore(entities, i, id) || (id != "" && id == entities[i].id)
  {
    forall id
      ensures ClaimedBefore(entities, i + 1, id) <==> ClaimedBefore(entities, i, id) || (id != "" && id == entities[i].id)
    {
      if ClaimedBefore(entities, i + 1, id) && !ClaimedBefore(entities, i, id) {
        var j :| 0 <= j < i + 1 && entities[j].id == id;
      }
      if ClaimedBefore(entities, i, id) {
        var j :| 0 <= j < i && entities[j].id == id;
        assert 0 <= j < i + 1;
      }
      if id != "" && id == entities[i].id {
        // position `i` is its own witness
        assert 0 <= i < i + 1 && entities[i].id == id;
      }
    }
  }

  /** The action due for entity `k`, decided from the whole entity list:
      skipped without an id, moving the mapped sprite when it is the first to
      name it, spawning otherwise. */
  function ActionAt(m: map<string, Handle>, entities: seq<WorldEntity>, k: nat): Action
    requires k < |entities|
  {
    var e := entities[k];
    if e.id == "" then Skip
    else if e.id in m && !ClaimedBefore(entities, k, e.id) then Update(m[e.id], PlacementOf(e))
    else Spawn(e.id, PlacementOf(e))
  }

  /** The sprites left in `remaining` are those of the unclaimed ids. */
  lemma RemainingValues(m: map<string, Handle>, remaining: map<string, Handle>, entities: seq<WorldEntity>)
    requires forall id :: id in remaining <==> id in m && !ClaimedBefore(entities, |entities|, id)
    requires forall id :: id in remaining ==> remaining[id] == m[id]
    ensures forall h :: h in remaining.Values <==>
      exists id :: id in m && !ClaimedBefore(entities, |entities|, id) && m[id] == h
  {
    forall h | h in remaining.Values
      ensures exists id :: id in m && !ClaimedBefore(entities, |entities|, id) && m[id] == h
    {
      var id :| id in remaining && remaining[id] == h;
    }
    forall h | exists id :: id in m && !ClaimedBefore(entities, |entities|, id) && m[id] == h
      ensures h in remaining.Values
    {
      var id :| id in m && !ClaimedBefore(entities, |entities|, id) && m[id] == h;
      assert remaining[id] == h;
    }
  }

  /** One turn of the loop: an entity with an id still unclaimed on screen
      takes that sprite; any other entity with an id spawns. */
  function StepAction(remaining: map<string, Handle>, e: WorldEntity): Action {
    if e.id == "" then Skip
    else if e.id in remaining then Update(remaining[e.id], PlacementOf(e))
    else Spawn(e.id, PlacementOf(e))
  }

  /** The sprites still unclaimed after one turn of the loop. */
  function StepRemaining(remaining: map<string, Handle>, e: WorldEntity): map<string, Handle> {
    if e.id != "" && e.id in remaining then remaining - {e.id} else remaining
  }

  /** The loop's map of unclaimed sprites decides each entity as `ActionAt`
      does, and stays the map of ids unclaimed so far. */
  lemma ReconcileStep(m: map<string, Handle>, remaining: map<string, Handle>, entities: seq<WorldEntity>, i: nat)
    requires i < |entities|
    requires forall id :: id in remaining <==> id in m && !ClaimedBefore(entities, i, id)
    requires forall id :: id in remaining ==> remaining[id] == m[id]
    ensures StepAction(remaining, entities[i]) == ActionAt(m, entities, i)
    ensures var next := StepRemaining(remaining, entities[i]);
      && (forall id :: id in next <==> id in m && !ClaimedBefore(entities, i + 1, id))
      && (forall id :: id in next ==> next[id] == m[id])
  {
    ClaimedStep(entities, i);
  }

  /** Actions decided by `ActionAt`, read case by case. */
  lemma ActionsMeaning(m: map<string, Handle>, entities: seq<WorldEntity>, actions: seq<Action>)
    requires |actions| == |entities|
    requires forall k :: 0 <= k < |entities| ==> actions[k] == ActionAt(m, entities, k)
    ensures forall i :: 0 <= i < |entities| && entities[i].id == "" ==> actions[i] == Skip
    ensures forall i :: (0 <= i < |entities| && entities[i].id != ""
      && entities[i].id in m && !ClaimedBefore(entities, i, entities[i].id)) ==>
        actions[i] == Update(m[entities[i].id], PlacementOf(entities[i]))
    ensures forall i :: (0 <= i < |entities| && entities[i].id != ""
      && (entities[i].id !in m || ClaimedBefore(entities, i, entities[i].id))) ==>
        actions[i] == Spawn(entities[i].id, PlacementOf(entities[i]))
  {
  }

  /** The reconciliation loop of `sync_world_file`: one action per snapshot
      entity, and the sprites left over, which are despawned. */
  method Reconcile(existing: seq<Tagged>, entities: seq<WorldEntity>) returns (actions: seq<Action>, despawned: set<Handle>)
    ensures |actions| == |entities|
    // an entity without an id is skipped
    ensures forall i :: 0 <= i < |entities| && entities[i].id == "" ==> actions[i] == Skip
    // the first entity naming an on-screen id moves that sprite
    ensures forall i :: (0 <= i < |entities| && entities[i].id != ""
      && entities[i].id in EntityMap(existing) && !ClaimedBefore(entities, i, entities[i].id)) ==>
        actions[i] == Update(EntityMap(existing)[entities[i].id], PlacementOf(entities[i]))
    // any other entity gets a new sprite
    ensures forall i :: (0 <= i < |entities| && entities[i].id != ""
      && (entities[i].id !in EntityMap(existing) || ClaimedBefore(entities, i, entities[i].id))) ==>
        actions[i] == Spawn(entities[i].id, PlacementOf(entities[i]))
    // the sprites whose id no entity claimed go away
    ensures forall h :: h in despawned <==>
      exists id :: id in EntityMap(existing) && !ClaimedBefore(entities, |entities|, id) && EntityMap(existing)[id] == h
    // the three cases above, as one reference definition
    ensures forall k :: 0 <= k < |entities| ==> actions[k] == ActionAt(EntityMap(existing), entities, k)
  {
    var m := EntityMap(existing);
    var remaining := m;
    actions := [];
    var i := 0;
    while i < |entities|
      invariant 0 <= i <= |entities|
      invariant |actions| == i
      invariant forall id :: id in remaining <==> id in m && !ClaimedBefore(entities, i, id)
      invariant forall id :: id in remaining ==> remaining[id] == m[id]
      invariant forall k :: 0 <= k < i ==> actions[k] == ActionAt(m, entities, k)
    {
      ReconcileStep(m, remaining, entities, i);
      actions := actions + [StepAction(remaining, entities[i])];
      remaining := StepRemaining(remaining, entities[i]);
      i := i + 1;
    }
    despawned := remaining.Values;
    RemainingValues(m, remaining, entities);
    ActionsMeaning(m, entities, actions);
  }

  /** The last position at or after `from` carrying `id`. */
  ghost function LastWith(existing: seq<Tagged>, id: string, from: nat): (k: nat)
    requires from < |existing| && existing[from].id == id
    ensures from <= k < |existing| && existing[k].id == id
    ensures forall j :: k < j < |existing| ==> existing[j].id != id
    decreases |existing| - from
  {
    if exists p :: from < p < |existing| && existing[p].id == id then
      var p :| from < p < |existing| && existing[p].id == id;
      LastWith(existing, id, p)
    else from
  }

  /** When two sprites on screen carry the same id, the earlier one is not in
      the map at all: by the contract of `Reconcile` no entity moves it and
      it is never despawned. */
  lemma EarlierDuplicateUnmapped(existing: seq<Tagged>, i: nat, j: nat)
    requires i < j < |existing| && existing[i].id == existing[j].id
    requires forall a, b :: 0 <= a < b < |existing| ==> existing[a].handle != existing[b].handle
    ensures forall id :: id in EntityMap(existing) ==> EntityMap(existing)[id] != existing[i].handle
  {
    var m := EntityMap(existing);
    var k := LastWith(existing, existing[i].id, j);
    EntityMapLastWins(existing, k);
    forall id | id in m
      ensures m[id] != existing[i].handle
    {
      var a :| 0 <= a < |existing| && existing[a] == Tagged(m[id], id);
    }
  }

  /** A sprite is placed exactly where the renderer is told to draw the same
      entity. */
  lemma SpritesMatchRenderRequest(world: Snapshot, width: nat, height: nat, i: nat)
    requires i < |world.entities|
    ensures var r := NeuralRenderer.RenderRequestFromWorld(world, width, height).entities[i];
      PlacementOf(world.entities[i]) == Placement(r.translation, r.scale, r.color)
  {
  }

  // ---------------------------------------------------------------------------
  // Light and clear colour
  // ---------------------------------------------------------------------------

  datatype ClearColor = ClearColor(r: real, g: real, b: real, a: real)

  /** The dark blue the window clears to at start. */
  const InitialClearColor := ClearColor(0.02, 0.02, 0.08, 1.0)

  function Clamp(x: real, lo: real, hi: real): (r: real)
    requires lo <= hi
    ensures lo <= r <= hi
    ensures lo <= x <= hi ==> r == x
  {
    if x < lo then lo else if x > hi then hi else x
  }

  /** The clear colour's alpha for a light intensity. */
  function AlphaOf(intensity: real): real {
    Clamp(Clamp(intensity, 0.0, 5.0) / 5.0, 0.1, 1.0)
  }

  /** The alpha is a fifth of the intensity, held between 0.1 and 1. */
  lemma AlphaOfIntensity(intensity: real)
    ensures intensity <= 0.5 ==> AlphaOf(intensity) == 0.1
    ensures 0.5 <= intensity <= 5.0 ==> AlphaOf(intensity) == intensity / 5.0
    ensures intensity >= 5.0 ==> AlphaOf(intensity) == 1.0
  {
  }

  lemma AlphaMonotone(i1: real, i2: real)
    requires i1 <= i2
    ensures AlphaOf(i1) <= AlphaOf(i2)
  {
  }

  /** The light's effect on the clear colour. */
  function ApplyLight(c: ClearColor, light: Option<Light>): (r: ClearColor)
    ensures light.None? ==> r == c
    // a colour replaces red, green and blue (and, being opaque, alpha)
    ensures light.Some? && light.value.color.Some? ==>
      var col := light.value.color.value;
      r.r == col.x && r.g == col.y && r.b == col.z
    ensures light.Some? && light.value.color.None? ==> r.r == c.r && r.g == c.g && r.b == c.b
    // an intensity sets alpha; without one a new colour leaves it opaque
    ensures light.Some? && light.value.intensity.Some? ==> r.a == AlphaOf(light.value.intensity.value)
    ensures light.Some? && light.value.intensity.None? ==>
      r.a == if light.value.color.Some? then 1.0 else c.a
  {
    if light.None? then c
    else
      var l := light.value;
      var tinted := if l.color.Some? then ClearColor(l.color.value.x, l.color.value.y, l.color.value.z, 1.0) else c;
      if l.intensity.Some? then tinted.(a := AlphaOf(l.intensity.value)) else tinted
  }

  // ---------------------------------------------------------------------------
  // Debug HUD
  // ---------------------------------------------------------------------------

  datatype HudState = HudState(entityCount: nat, lastCommand: Option<string>)

  const InitialHud := HudState(0, None)

  /** `capture_router_commands`: the last command of the frame's events is
      kept. */
  function CaptureRouterCommands(hud: HudState, events: seq<string>): (r: HudState)
    ensures r.entityCount == hud.entityCount
    ensures events == [] ==> r == hud
    ensures events != [] ==> r.lastCommand == Some(events[|events| - 1])
    decreases |events|
  {
    if events == [] then hud
    else CaptureRouterCommands(hud.(lastCommand := Some(events[0])), events[1..])
  }

  datatype HudColor = White | Gray

  /** The two text sections of the HUD and the second one's colour. */
  datatype HudText = HudText(counts: string, command: string, commandColor: HudColor)

  const CountsPrefix := "Entities: "
  const CommandPrefix := "Last command: "

  /** `update_hud_text` when the HUD state changed. */
  function RenderHud(hud: HudState): (t: HudText)
    ensures t.commandColor == White <==> hud.lastCommand.Some?
  {
    var shown := if hud.lastCommand.Some? then hud.lastCommand.value else "(none)";
    HudText(CountsPrefix + (NatToString(hud.entityCount) + "\n"), CommandPrefix + shown,
      if hud.lastCommand.Some? then White else Gray)
  }

  /** The text `setup_hud` starts with is what the initial state renders
      to. */
  lemma InitialHudTextMatches()
    ensures RenderHud(InitialHud) == HudText("Entities: 0\n", "Last command: (none)", Gray)
  {
    assert NatToString(0) == "0";
  }

  /** The HUD shows its whole state: different states render differently.
      The text alone cannot tell a command literally named `(none)` from no
      command; the colour can. */
  lemma RenderHudInjective(h1: HudState, h2: HudState)
    requires RenderHud(h1) == RenderHud(h2)
    ensures h1 == h2
  {
    var t := RenderHud(h1);
    var a := NatToString(h1.entityCount);
    var b := NatToString(h2.entityCount);
    NeuralRenderer.StripPrefix(CountsPrefix, a + "\n", b + "\n");
    assert a == (a + "\n")[..|a|];
    assert b == (b + "\n")[..|b|];
    NatToStringInjective(h1.entityCount, h2.entityCount);
    if h1.lastCommand.Some? {
      NeuralRenderer.StripPrefix(CommandPrefix, h1.lastCommand.value, h2.lastCommand.value);
    }
  }

  lemma NoneCommandShownLikeNoCommand(n: nat)
    ensures RenderHud(HudState(n, Some("(none)"))).command == RenderHud(HudState(n, None)).command
    ensures RenderHud(HudState(n, Some("(none)"))).commandColor != RenderHud(HudState(n, None)).commandColor
  {
  }

  /** `update_hud_text`: the text is redrawn only when the state changed. */
  function UpdateHudText(shown: HudText, hud: HudState, changed: bool): (t: HudText)
    ensures changed ==> t == RenderHud(hud)
    ensures !changed ==> t == shown
  {
    if changed then RenderHud(hud) else shown
  }

  // ---------------------------------------------------------------------------
  // One tick of `sync_world_file`
  // ---------------------------------------------------------------------------

  datatype SyncOutcome = SyncOutcome(
    sync: SyncState,
    hud: HudState,
    actions: seq<Action>,
    despawned: set<Handle>,
    cameraMove: Option<Vec3>,
    clear: ClearColor)

  /** `sync_world_file`, given whether the 100 ms timer fired this frame. */
  method SyncWorldFile(
    timerFinished: bool, state: SyncState, file: WorldFile, existing: seq<Tagged>, hud: HudState, clear: ClearColor)
    returns (out: SyncOutcome)
    // nothing happens unless the timer fired and a new snapshot was read
    ensures !timerFinished ==> out == SyncOutcome(state, hud, [], {}, None, clear)
    ensures timerFinished ==> out.sync == ReadSnapshot(state, file).0
    ensures timerFinished && ReadSnapshot(state, file).1.None? ==> out == SyncOutcome(state, hud, [], {}, None, clear)
    ensures timerFinished && ReadSnapshot(state, file).1.Some? ==>
      var world := ReadSnapshot(state, file).1.value;
      // the HUD counts every entity, the skipped ones included
      && out.hud == hud.(entityCount := |world.entities|)
      // the sprites are reconciled as `Reconcile` promises
      && |out.actions| == |world.entities|
      && (forall k :: 0 <= k < |world.entities| ==>
            out.actions[k] == ActionAt(EntityMap(existing), world.entities, k))
      && (forall h :: h in out.despawned <==>
            exists id :: id in EntityMap(existing) && !ClaimedBefore(world.entities, |world.entities|, id)
              && EntityMap(existing)[id] == h)
      // the camera follows the snapshot's camera translation, if any
      && (if world.camera.Some? && world.camera.value.translation.Some?
          then out.cameraMove == world.camera.value.translation
          else out.cameraMove.None?)
      && out.clear == ApplyLight(clear, world.light)
  {
    if !timerFinished {
      return SyncOutcome(state, hud, [], {}, None, clear);
    }
    var read := ReadSnapshot(state, file);
    if read.1.None? {
      return SyncOutcome(read.0, hud, [], {}, None, clear);
    }
    var world := read.1.value;
    var actions, despawned := Reconcile(existing, world.entities);
    var cameraMove :=
      if world.camera.Some? && world.camera.value.translation.Some? then world.camera.value.translation else None;
    out := SyncOutcome(read.0, hud.(entityCount := |world.entities|), actions, despawned, cameraMove,
      ApplyLight(clear, world.light));
  }

  // ---------------------------------------------------------------------------
  // The neural renderer tick
  // ---------------------------------------------------------------------------

  /** The size used when there is no primary window. */
  const FallbackSize := (800, 600)

  /** `run_neural_renderer`, given whether its 0.5 s timer fired and the
      primary window's size if there is one. */
  function RunNeuralRenderer(
    renderer: NeuralRenderer.MockRenderer, timerFinished: bool, state: SyncState, window: Option<(nat, nat)>)
    : (r: (NeuralRenderer.MockRenderer, Option<string>))
    // a frame is rendered exactly when the timer fired and a snapshot was
    // ever read
    ensures r.1.Some? <==> timerFinished && state.latestSnapshot.Some?
    ensures r.1.None? ==> r.0 == renderer
    ensures r.1.Some? ==>
      var size := window.UnwrapOr(FallbackSize);
      && r.0.renderedFrames == renderer.renderedFrames + 1
      && r.1.value == NeuralRenderer.Summary(
           renderer.renderedFrames + 1, |state.latestSnapshot.value.entities|, size.0, size.1)
  {
    if !timerFinished || state.latestSnapshot.None? then (renderer, None)
    else
      var size := window.UnwrapOr(FallbackSize);
      var request := NeuralRenderer.RenderRequestFromWorld(state.latestSnapshot.value, size.0, size.1);
      var step := NeuralRenderer.Render(renderer, request);
      (step.0, Some(step.1.value.summary))
  }
}
