/** The HTTP command router's own copy of the text-to-patch translation, the
    status decision of its `/command` endpoint, and how its output fares when
    the runtime applies it. */
module RouterServer {
  import opened Base
  import opened Json
  import opened TextNormalize
  import RuntimeMain
  import Commands = RouterCommands

  const DefaultEntityId := "entity:cube:001"

  /** The id this copy gives the cube it spawns. */
  const SpawnEntityId := "entity:newcube"

  const MoveVectors: map<string, Commands.Vector> := map[
    "move cube up" := Commands.Vector(0.0, 1.0, 0.0),
    "move cube down" := Commands.Vector(0.0, -1.0, 0.0),
    "move cube left" := Commands.Vector(-1.0, 0.0, 0.0),
    "move cube right" := Commands.Vector(1.0, 0.0, 0.0),
    "move cube forward" := Commands.Vector(0.0, 0.0, 1.0),
    "move cube back" := Commands.Vector(0.0, 0.0, -1.0)
  ]

  const ColorMap: map<string, seq<real>> := map[
    "make cube red" := [1.0, 0.0, 0.0],
    "make cube blue" := [0.0, 0.0, 1.0],
    "make cube green" := [0.0, 1.0, 0.0]
  ]

  function PatchesFor(normalized: string): seq<Json> {
    if normalized in MoveVectors then
      [Commands.MakePatch(DefaultEntityId, "move_entity", Commands.MoveData(MoveVectors[normalized]))]
    else if normalized == "spawn cube" then Commands.SpawnPatches(SpawnEntityId)
    else if normalized == "delete cube" then [Commands.DeletePatch(DefaultEntityId)]
    else if normalized in ColorMap then
      [Commands.MakePatch(DefaultEntityId, "set_color", Commands.ColorData(ColorMap[normalized]))]
    else []
  }

  function TextToPatches(text: string): seq<Json> {
    PatchesFor(Normalize(text))
  }

  /** Both copies carry the same tables and the same default entity. */
  lemma TablesAgree()
    ensures MoveVectors == Commands.MoveVectors
    ensures ColorMap == Commands.ColorMap
    ensures DefaultEntityId == Commands.DefaultEntityId
  {
  }

  /** The two table lookups agree on every normalised command except
      `spawn cube`. */
  lemma PatchesForAgree(n: string)
    ensures n != "spawn cube" ==> PatchesFor(n) == Commands.PatchesFor(n)
    ensures n == "spawn cube" ==>
      && PatchesFor(n) == Commands.SpawnPatches(SpawnEntityId)
      && Commands.PatchesFor(n) == Commands.SpawnPatches(Commands.DefaultEntityId)
  {
    TablesAgree();
  }

  /** The two routers agree on every command except `spawn cube`. There both
      emit the spawn sequence, but this copy addresses it to
      `entity:newcube` instead of the default entity. */
  lemma AgreesExceptSpawn(text: string)
    ensures Normalize(text) != "spawn cube" ==> TextToPatches(text) == Commands.TextToPatches(text)
    ensures Normalize(text) == "spawn cube" ==>
      && TextToPatches(text) == Commands.SpawnPatches(SpawnEntityId)
      && Commands.TextToPatches(text) == Commands.SpawnPatches(Commands.DefaultEntityId)
    ensures SpawnEntityId != Commands.DefaultEntityId
  {
    PatchesForAgree(Normalize(text));
  }

  /** Two spawn sequences differ only in the entity they address: the same
      three patch kinds with the same data, in the same order. */
  lemma SpawnSequencesDifferOnlyInId(a: string, b: string)
    ensures Commands.AllWellFormed(Commands.SpawnPatches(a)) && Commands.AllWellFormed(Commands.SpawnPatches(b))
    ensures var mine := Commands.Decoded(Commands.SpawnPatches(a));
      var theirs := Commands.Decoded(Commands.SpawnPatches(b));
      && |mine| == |theirs| == 3
      && (forall i :: 0 <= i < 3 ==>
            && mine[i].kind == theirs[i].kind
            && mine[i].data == theirs[i].data
            && mine[i].id == a
            && theirs[i].id == b)
  {
    Commands.SpawnPatchesDecode(a);
    Commands.SpawnPatchesDecode(b);
  }

  /** Unrecognised text yields no patches. */
  lemma UnknownYieldsNothing(text: string)
    ensures TextToPatches(text) == [] <==> Normalize(text) !in Commands.Recognised
  {
  }

  /** Persisting the patches hands them back unchanged; the file write itself
      is not modelled. */
  function WritePatches(patches: seq<Json>): seq<Json> {
    patches
  }

  datatype Response = Response(status: nat, body: Json)

  const UnknownCommandBody := JObj(map["error" := JStr("Unknown command"), "patches" := JArr([])])

  /** The `/command` endpoint. */
  function Command(text: string): (r: Response)
    ensures r.status == 400 <==> TextToPatches(text) == []
    ensures r.status == 400 ==> r.body == UnknownCommandBody
    ensures r.status != 400 ==> r.status == 200 && r.body == JArr(TextToPatches(text))
  {
    var patches := TextToPatches(text);
    if patches == [] then Response(400, UnknownCommandBody)
    else Response(200, JArr(WritePatches(patches)))
  }

  /** A command is accepted exactly when it is one of the recognised phrases
      after normalisation. */
  lemma CommandAcceptedIffRecognised(text: string)
    ensures Command(text).status == 200 <==> Normalize(text) in Commands.Recognised
  {
    UnknownYieldsNothing(text);
  }

  // ---------------------------------------------------------------------------
  // Router output applied by the runtime
  // ---------------------------------------------------------------------------

  /** The router's output loads into the runtime one patch per record, but
      of the router's patch types the runtime applies only `spawn_entity`: a
      move command's patch raises `ValueError` there and leaves the world as
      it was. */
  lemma MoveOutputRejectedByRuntime(text: string, world: RuntimeMain.World)
    requires Normalize(text) in MoveVectors
    ensures Commands.AllWellFormed(TextToPatches(text))
    ensures var ps := Commands.Decoded(TextToPatches(text));
      RuntimeMain.ApplyAll(world, ps)
        == RuntimeMain.Applied(world, Some(RuntimeMain.ValueError("Unsupported patch type: move_entity")))
  {
    var d := Commands.MoveData(MoveVectors[Normalize(text)]);
    assert TextToPatches(text) == [Commands.MakePatch(DefaultEntityId, "move_entity", d)];
    Commands.MakePatchDecodes(DefaultEntityId, "move_entity", d);
    var p := RuntimeMain.Patch(DefaultEntityId, "move_entity", d);
    assert Commands.Decoded(TextToPatches(text)) == [p];
    MoveRejected(world, p);
    assert RuntimeMain.ApplyAll(world, [p]) == RuntimeMain.ApplyPatch(world, p);
  }

  /** The runtime's answer to a `move_entity` patch. */
  lemma MoveRejected(world: RuntimeMain.World, p: RuntimeMain.Patch)
    requires p.kind == "move_entity"
    ensures RuntimeMain.ApplyPatch(world, p)
      == RuntimeMain.Applied(world, Some(RuntimeMain.ValueError("Unsupported patch type: move_entity")))
  {
    RuntimeMain.UnsupportedTypeRaises(world, p);
    assert "Unsupported patch type: " + "move_entity" == "Unsupported patch type: move_entity";
  }

  /** Applying the `spawn cube` output spawns the cube (with id
      `entity:newcube`) and then stops at the `move_entity` patch. */
  lemma SpawnOutputPartlyApplied(text: string, world: RuntimeMain.World)
    requires Normalize(text) == "spawn cube"
    requires "entities" !in world || world["entities"].JArr?
    ensures TextToPatches(text) == Commands.SpawnPatches(SpawnEntityId)
    ensures Commands.AllWellFormed(TextToPatches(text))
    ensures var ps := Commands.Decoded(TextToPatches(text));
      var out := RuntimeMain.ApplyAll(world, ps);
      && out.raised == Some(RuntimeMain.ValueError("Unsupported patch type: move_entity"))
      && RuntimeMain.Entities(out.world)
           == RuntimeMain.Entities(world) + [JObj(map["kind" := JStr("cube"), "id" := JStr(SpawnEntityId)])]
  {
    PatchesForAgree(Normalize(text));
    Commands.SpawnPatchesDecode(SpawnEntityId);
    SpawnThenMove(world, Commands.Decoded(Commands.SpawnPatches(SpawnEntityId)));
  }

  /** No recognised command's output reaches the world file: each one holds
      a patch type the runtime does not handle, so `main` raises before it
      writes. */
  lemma RouterOutputNeverWritten(text: string, world: RuntimeMain.World)
    requires Normalize(text) in Commands.Recognised
    ensures Commands.AllWellFormed(TextToPatches(text))
    ensures RuntimeMain.WrittenWorld(world, Commands.Decoded(TextToPatches(text))) == None
  {
    PatchesForNeverWritten(Normalize(text), world);
  }

  /** `RouterOutputNeverWritten`, stated on the normalised command. */
  lemma PatchesForNeverWritten(n: string, world: RuntimeMain.World)
    requires n in Commands.Recognised
    ensures Commands.AllWellFormed(PatchesFor(n))
    ensures RuntimeMain.WrittenWorld(world, Commands.Decoded(PatchesFor(n))) == None
  {
    TablesAgree();
    if n in MoveVectors {
      UnhandledPatchNeverWritten(world, DefaultEntityId, "move_entity", Commands.MoveData(MoveVectors[n]));
    } else if n == "spawn cube" {
      SpawnNeverWritten(world, SpawnEntityId);
    } else if n == "delete cube" {
      UnhandledPatchNeverWritten(world, DefaultEntityId, "delete_entity", map[]);
    } else {
      UnhandledPatchNeverWritten(world, DefaultEntityId, "set_color", Commands.ColorData(ColorMap[n]));
    }
  }

  /** A lone patch of a type the runtime does not handle is never written. */
  lemma UnhandledPatchNeverWritten(world: RuntimeMain.World, id: string, kind: string, data: map<string, Json>)
    requires kind !in RuntimeMain.SupportedKinds
    ensures Commands.AllWellFormed([Commands.MakePatch(id, kind, data)])
    ensures RuntimeMain.WrittenWorld(world, Commands.Decoded([Commands.MakePatch(id, kind, data)])) == None
  {
    Commands.MakePatchDecodes(id, kind, data);
    assert Commands.Decoded([Commands.MakePatch(id, kind, data)])[0].kind == kind;
  }

  /** The spawn sequence is never written: its second patch is a move. */
  lemma SpawnNeverWritten(world: RuntimeMain.World, id: string)
    ensures Commands.AllWellFormed(Commands.SpawnPatches(id))
    ensures RuntimeMain.WrittenWorld(world, Commands.Decoded(Commands.SpawnPatches(id))) == None
  {
    Commands.SpawnPatchesDecode(id);
    assert Commands.Decoded(Commands.SpawnPatches(id))[1].kind == "move_entity";
  }

  lemma SpawnThenMove(world: RuntimeMain.World, ps: seq<RuntimeMain.Patch>)
    requires |ps| >= 2
    requires ps[0] == RuntimeMain.Patch(SpawnEntityId, "spawn_entity", map["kind" := JStr("cube")])
    requires ps[1].kind == "move_entity"
    requires "entities" !in world || world["entities"].JArr?
    ensures var out := RuntimeMain.ApplyAll(world, ps);
      && out.raised == Some(RuntimeMain.ValueError("Unsupported patch type: move_entity"))
      && RuntimeMain.Entities(out.world)
           == RuntimeMain.Entities(world) + [JObj(map["kind" := JStr("cube"), "id" := JStr(SpawnEntityId)])]
  {
    RuntimeMain.SpawnAppendsOne(world, ps[0]);
    var w1 := RuntimeMain.ApplyPatch(world, ps[0]).world;
    assert RuntimeMain.SpawnedEntity(ps[0]) == map["kind" := JStr("cube"), "id" := JStr(SpawnEntityId)];
    assert RuntimeMain.ApplyAll(world, ps) == RuntimeMain.ApplyAll(w1, ps[1..]);
    assert ps[1..][0] == ps[1];
    MoveRejected(w1, ps[1]);
    assert RuntimeMain.ApplyAll(w1, ps[1..]) == RuntimeMain.ApplyPatch(w1, ps[1]);
  }
}
