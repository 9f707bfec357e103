/** The world-patch runtime: validating raw patch records, applying
    `spawn_entity`, `move_camera` and `set_light` patches to a JSON world,
    flattening patch files and choosing where patches come from.

    File reads, JSON parsing and the world write are left to the caller: the
    model receives already-parsed payloads and returns the updated world. */
module RuntimeMain {
  import opened Base
  import opened Json

  /** The Python exceptions the runtime raises, with their messages. */
  datatype PyError =
    | TypeError(message: string)
    | KeyError(message: string)
    | ValueError(message: string)
    | AttributeError(message: string)
      /** A light name that is a number, boolean or null: Python would use it
          as a non-string dict key, which a string-keyed world cannot hold. */
    | UnmodelledKey(message: string)

  /** A validated patch: `data` is always a JSON object. */
  datatype Patch = Patch(id: string, kind: string, data: map<string, Json>)

  /** The top-level world object. */
  type World = map<string, Json>

  /** The world written when none exists yet. */
  const DefaultWorld: World := map[
    "entities" := JArr([]),
    "camera" := JObj(map[
      "position" := JArr([JNum(0.0), JNum(1.0), JNum(5.0)]),
      "target" := JArr([JNum(0.0), JNum(0.0), JNum(0.0)])
    ]),
    "lighting" := JObj(map[])
  ]

  // ---------------------------------------------------------------------------
  // Patch.from_raw
  // ---------------------------------------------------------------------------

  const NotAnObjectMessage := "Patch must be an object"

  function MissingFieldMessage(field: string): string {
    "Patch is missing required field: " + field
  }

  /** The three fields every raw patch must carry, in lookup order. */
  const RequiredFields: seq<string> := ["id", "type", "data"]

  /** A raw record that `from_raw` accepts. */
  predicate IsWellFormed(raw: Json) {
    && raw.JObj?
    && "id" in raw.fields && raw.fields["id"].JStr?
    && "type" in raw.fields && raw.fields["type"].JStr?
    && "data" in raw.fields && raw.fields["data"].JObj?
  }

  /** The raw record a patch is serialised to. */
  function ToRaw(p: Patch): Json {
    JObj(map["id" := JStr(p.id), "type" := JStr(p.kind), "data" := JObj(p.data)])
  }

  function FromRaw(raw: Json): (r: Result<Patch, PyError>)
    ensures r.Ok? <==> IsWellFormed(raw)
    ensures !raw.JObj? ==> r == Err(TypeError(NotAnObjectMessage))
    // a missing field is reported before any type error, naming the first one missing
    ensures raw.JObj? && "id" !in raw.fields ==> r == Err(KeyError(MissingFieldMessage("id")))
    ensures raw.JObj? && "id" in raw.fields && "type" !in raw.fields
            ==> r == Err(KeyError(MissingFieldMessage("type")))
    ensures raw.JObj? && "id" in raw.fields && "type" in raw.fields && "data" !in raw.fields
            ==> r == Err(KeyError(MissingFieldMessage("data")))
    ensures r.Err? && r.error.KeyError? ==> raw.JObj? && !(forall f :: f in RequiredFields ==> f in raw.fields)
    ensures r.Err? ==> r.error.TypeError? || r.error.KeyError?
  {
    if !raw.JObj? then Err(TypeError(NotAnObjectMessage))
    else
      var m := raw.fields;
      if "id" !in m then Err(KeyError(MissingFieldMessage("id")))
      else if "type" !in m then Err(KeyError(MissingFieldMessage("type")))
      else if "data" !in m then Err(KeyError(MissingFieldMessage("data")))
      else if !m["id"].JStr? then Err(TypeError("Patch 'id' must be a string"))
      else if !m["type"].JStr? then Err(TypeError("Patch 'type' must be a string"))
      else if !m["data"].JObj? then Err(TypeError("Patch 'data' must be an object"))
      else Ok(Patch(m["id"].s, m["type"].s, m["data"].fields))
  }

  /** Serialising a patch and validating it again gives the patch back. */
  lemma FromRawToRaw(p: Patch)
    ensures FromRaw(ToRaw(p)) == Ok(p)
  {
  }

  /** An accepted record carries exactly the patch's three fields, whatever
      else it holds: extra keys are ignored. */
  lemma {:induction false} ToRawFromRaw(raw: Json, p: Patch)
    requires FromRaw(raw) == Ok(p)
    ensures raw.JObj?
    ensures ToRaw(p).fields == map f | f in raw.fields && f in RequiredFields :: raw.fields[f]
  {
    var kept := map f | f in raw.fields && f in RequiredFields :: raw.fields[f];
    assert kept.Keys == {"id", "type", "data"};
  }

  // ---------------------------------------------------------------------------
  // apply_patch
  // ---------------------------------------------------------------------------

  /** The world after `apply_patch`, and the exception it raised, if any.
      `apply_patch` mutates in place, so a raise can follow a partial write. */
  datatype Applied = Applied(world: World, raised: Option<PyError>)

  function NoAttribute(v: Json, attribute: string): PyError {
    AttributeError("'" + PyTypeName(v) + "' object has no attribute '" + attribute + "'")
  }

  /** The entity a `spawn_entity` patch appends: a copy of `data` whose `id`
      defaults to the patch id. */
  function SpawnedEntity(p: Patch): map<string, Json> {
    if "id" in p.data then p.data else p.data["id" := JStr(p.id)]
  }

  /** The light a `set_light` patch addresses: `data["name"]`, else the patch id. */
  function LightName(p: Patch): Json {
    Get(p.data, "name", JStr(p.id))
  }

  /** The light fields a `set_light` patch stores: `data` without `name`. */
  function LightState(p: Patch): map<string, Json> {
    p.data - {"name"}
  }

  /** The patch types `apply_patch` handles. */
  const SupportedKinds: set<string> := {"spawn_entity", "move_camera", "set_light"}

  /** `apply_patch`: the world after the patch, and what it raised. */
  function ApplyPatch(world: World, p: Patch): (r: Applied)
    // only the three supported types can succeed
    ensures r.raised.None? ==> p.kind in SupportedKinds
    // a success never drops a key of the world
    ensures r.raised.None? ==> world.Keys <= r.world.Keys
  {
    if p.kind == "spawn_entity" then
      var entity := JObj(SpawnedEntity(p));
      if "entities" !in world then Applied(world["entities" := JArr([entity])], None)
      else match world["entities"]
        case JArr(items) => Applied(world["entities" := JArr(items + [entity])], None)
        case other => Applied(world, Some(NoAttribute(other, "append")))
    else if p.kind == "move_camera" then
      if "camera" !in world then Applied(world["camera" := JObj(p.data)], None)
      else match world["camera"]
        case JObj(camera) => Applied(world["camera" := JObj(camera + p.data)], None)
        case other => Applied(world, Some(NoAttribute(other, "update")))
    else if p.kind == "set_light" then
      // `world.setdefault("lighting", {})` writes before anything can raise
      var w1 := if "lighting" in world then world else world["lighting" := JObj(map[])];
      match w1["lighting"]
      case JObj(lighting) =>
        (match LightName(p)
         case JStr(name) =>
           var existing := Get(lighting, name, JObj(map[]));
           if existing.JObj? then
             Applied(w1["lighting" := JObj(lighting[name := JObj(existing.fields + LightState(p))])], None)
           else Applied(w1, Some(TypeError("'" + PyTypeName(existing) + "' object is not a mapping")))
         case JArr(_) => Applied(w1, Some(TypeError("unhashable type: 'list'")))
         case JObj(_) => Applied(w1, Some(TypeError("unhashable type: 'dict'")))
         case other => Applied(w1, Some(UnmodelledKey("light name of type '" + PyTypeName(other) + "'"))))
      case other => Applied(w1, Some(NoAttribute(other, "get")))
    else Applied(world, Some(ValueError("Unsupported patch type: " + p.kind)))
  }

  /** `spawn_entity` appends exactly one entity at the end of `entities`
      (creating the list when absent); earlier entities and every other key
      of the world are unchanged. */
  lemma SpawnAppendsOne(world: World, p: Patch)
    requires p.kind == "spawn_entity"
    requires "entities" !in world || world["entities"].JArr?
    ensures ApplyPatch(world, p).raised == None
    ensures var w' := ApplyPatch(world, p).world;
      var before := if "entities" in world then world["entities"].items else [];
      && w'.Keys == world.Keys + {"entities"}
      && (forall k :: k in world && k != "entities" ==> w'[k] == world[k])
      && w'["entities"].JArr?
      && |w'["entities"].items| == |before| + 1
      && w'["entities"].items[..|before|] == before
      && w'["entities"].items[|before|] == JObj(SpawnedEntity(p))
  {
    var w' := ApplyPatch(world, p).world;
    var before := if "entities" in world then world["entities"].items else [];
    assert w'["entities"].items == before + [JObj(SpawnedEntity(p))];
  }

  /** The spawned entity is `data` with `id` added only when `data` has none:
      `id` is `data["id"]` if present, else the patch id, and every other field
      is `data`'s. */
  lemma SpawnedEntityFields(p: Patch)
    ensures SpawnedEntity(p).Keys == p.data.Keys + {"id"}
    ensures SpawnedEntity(p)["id"] == Get(p.data, "id", JStr(p.id))
    ensures forall k :: k in p.data && k != "id" ==> SpawnedEntity(p)[k] == p.data[k]
  {
  }

  /** A non-list `entities` makes `spawn_entity` raise and leaves the world as it was. */
  lemma SpawnOnNonListRaises(world: World, p: Patch)
    requires p.kind == "spawn_entity"
    requires "entities" in world && !world["entities"].JArr?
    ensures ApplyPatch(world, p) == Applied(world, Some(NoAttribute(world["entities"], "append")))
  {
  }

  /** `move_camera` overwrites exactly the camera keys present in `data` and
      keeps all other camera keys and all other world keys. */
  lemma MoveCameraMerges(world: World, p: Patch)
    requires p.kind == "move_camera"
    requires "camera" !in world || world["camera"].JObj?
    ensures ApplyPatch(world, p).raised == None
    ensures var w' := ApplyPatch(world, p).world;
      var before := if "camera" in world then world["camera"].fields else map[];
      && w'.Keys == world.Keys + {"camera"}
      && (forall k :: k in world && k != "camera" ==> w'[k] == world[k])
      && w'["camera"].JObj?
      && w'["camera"].fields.Keys == before.Keys + p.data.Keys
      && (forall k :: k in p.data ==> w'["camera"].fields[k] == p.data[k])
      && (forall k :: k in before && k !in p.data ==> w'["camera"].fields[k] == before[k])
  {
  }

  /** `set_light` on a string name stores `data` without `name`, merged over
      the existing entry with the new keys winning; other lights and other
      world keys are untouched. */
  lemma SetLightMerges(world: World, p: Patch, name: string)
    requires p.kind == "set_light"
    requires LightName(p) == JStr(name)
    requires "lighting" !in world || world["lighting"].JObj?
    requires "lighting" in world && name in world["lighting"].fields ==> world["lighting"].fields[name].JObj?
    ensures ApplyPatch(world, p).raised == None
    ensures var w' := ApplyPatch(world, p).world;
      var lights := if "lighting" in world then world["lighting"].fields else map[];
      var existing := if name in lights then lights[name].fields else map[];
      && w'.Keys == world.Keys + {"lighting"}
      && (forall k :: k in world && k != "lighting" ==> w'[k] == world[k])
      && w'["lighting"].JObj?
      && w'["lighting"].fields.Keys == lights.Keys + {name}
      && (forall n :: n in lights && n != name ==> w'["lighting"].fields[n] == lights[n])
      && w'["lighting"].fields[name].JObj?
      && w'["lighting"].fields[name].fields.Keys == existing.Keys + (p.data.Keys - {"name"})
      && (forall k :: k in p.data && k != "name" ==> w'["lighting"].fields[name].fields[k] == p.data[k])
      && (forall k :: k in existing && k !in p.data ==> w'["lighting"].fields[name].fields[k] == existing[k])
  {
  }

  /** The light addressed is `data["name"]` when given, else the patch id. */
  lemma LightNameDefault(p: Patch)
    ensures "name" in p.data ==> LightName(p) == p.data["name"]
    ensures "name" !in p.data ==> LightName(p) == JStr(p.id)
    ensures "name" !in LightState(p)
  {
  }

  /** Any other patch type raises `ValueError` and leaves the world unmodified. */
  lemma UnsupportedTypeRaises(world: World, p: Patch)
    requires p.kind !in {"spawn_entity", "move_camera", "set_light"}
    ensures ApplyPatch(world, p).world == world
    ensures ApplyPatch(world, p).raised == Some(ValueError("Unsupported patch type: " + p.kind))
  {
  }

  /** The only raise that follows a write: `set_light` with an unhashable name
      on a world without `lighting` leaves an empty `lighting` behind. Every
      other raise leaves the world unmodified. */
  lemma RaiseLeavesWorldAlmostUnchanged(world: World, p: Patch)
    requires ApplyPatch(world, p).raised.Some?
    ensures var w' := ApplyPatch(world, p).world;
      w' == world || (p.kind == "set_light" && "lighting" !in world && w' == world["lighting" := JObj(map[])])
  {
  }

  /** The default world has the shapes every supported patch expects: a
      list of entities, a camera object and a lighting object. */
  lemma DefaultWorldAcceptsSupportedPatches(p: Patch)
    requires p.kind in {"spawn_entity", "move_camera", "set_light"}
    requires p.kind == "set_light" ==> LightName(p).JStr?
    ensures ApplyPatch(DefaultWorld, p).raised == None
  {
  }

  /** The patch loop of `main`: patches are applied in order and the first
      raise ends the run. */
  function ApplyAll(world: World, patches: seq<Patch>): (r: Applied)
    // a run completes only when every patch has a supported type
    ensures r.raised.None? ==> forall i :: 0 <= i < |patches| ==> patches[i].kind in SupportedKinds
    // a completed run keeps every key of the world
    ensures r.raised.None? ==> world.Keys <= r.world.Keys
    decreases |patches|
  {
    if |patches| == 0 then Applied(world, None)
    else
      var step := ApplyPatch(world, patches[0]);
      if step.raised.Some? then step else ApplyAll(step.world, patches[1..])
  }

  /** What `main` writes back to the world file: the patched world, or
      nothing when a patch raises, since the exception leaves `main` before
      `write_world` is reached. */
  function WrittenWorld(world: World, patches: seq<Patch>): (r: Option<World>)
    // one patch of an unsupported type is enough to write nothing
    ensures (exists i :: 0 <= i < |patches| && patches[i].kind !in SupportedKinds) ==> r.None?
    // what is written keeps every key the world had
    ensures r.Some? ==> world.Keys <= r.value.Keys
    // the world is written exactly when the loop completes, and it is the
    // patched world
    ensures r.Some? <==> ApplyAll(world, patches).raised.None?
    ensures r.Some? ==> r.value == ApplyAll(world, patches).world
  {
    var out := ApplyAll(world, patches);
    if out.raised.None? then Some(out.world) else None
  }

  /** The entity list of a world: the items of `entities`, or none when the
      key is absent or not a list. */
  function Entities(w: World): seq<Json> {
    if "entities" in w && w["entities"].JArr? then w["entities"].items else []
  }

  /** One spawn step seen through `Entities`: one entity more at the end. */
  lemma SpawnStep(world: World, p: Patch)
    requires p.kind == "spawn_entity"
    requires "entities" !in world || world["entities"].JArr?
    ensures ApplyPatch(world, p).raised == None
    ensures "entities" in ApplyPatch(world, p).world && ApplyPatch(world, p).world["entities"].JArr?
    ensures Entities(ApplyPatch(world, p).world) == Entities(world) + [JObj(SpawnedEntity(p))]
  {
    SpawnAppendsOne(world, p);
    var w' := ApplyPatch(world, p).world;
    assert Entities(w') == w'["entities"].items;
  }

  /** The entities a run of spawn patches adds, in patch order. */
  function SpawnedEntities(patches: seq<Patch>): seq<Json> {
    seq(|patches|, i requires 0 <= i < |patches| => JObj(SpawnedEntity(patches[i])))
  }

  lemma SpawnedEntitiesSplit(patches: seq<Patch>)
    requires |patches| > 0
    ensures SpawnedEntities(patches) == [JObj(SpawnedEntity(patches[0]))] + SpawnedEntities(patches[1..])
  {
  }

  /** A patch that does not raise hands the rest of the run its world. */
  lemma ApplyAllStep(world: World, patches: seq<Patch>)
    requires |patches| > 0 && ApplyPatch(world, patches[0]).raised == None
    ensures ApplyAll(world, patches) == ApplyAll(ApplyPatch(world, patches[0]).world, patches[1..])
  {
  }

  /** Applying spawn patches to a world whose `entities` is a list (or absent)
      appends exactly one entity per patch, in patch order, after the entities
      already there. */
  lemma {:induction false} SpawnAllAppends(world: World, patches: seq<Patch>)
    requires "entities" !in world || world["entities"].JArr?
    requires forall i :: 0 <= i < |patches| ==> patches[i].kind == "spawn_entity"
    ensures ApplyAll(world, patches).raised == None
    ensures var w' := ApplyAll(world, patches).world;
      && ("entities" !in w' || w'["entities"].JArr?)
      && Entities(w') == Entities(world) + SpawnedEntities(patches)
    decreases |patches|
  {
    if |patches| == 0 {
      assert Entities(world) + SpawnedEntities(patches) == Entities(world);
    } else {
      SpawnStep(world, patches[0]);
      var w1 := ApplyPatch(world, patches[0]).world;
      SpawnAllAppends(w1, patches[1..]);
      SpawnedEntitiesSplit(patches);
      ApplyAllStep(world, patches);
    }
  }

  /** A run of spawns completes, so `main` writes the world with one new
      entity per patch after the existing ones. */
  lemma SpawnRunIsWritten(world: World, patches: seq<Patch>)
    requires "entities" !in world || world["entities"].JArr?
    requires forall i :: 0 <= i < |patches| ==> patches[i].kind == "spawn_entity"
    ensures WrittenWorld(world, patches).Some?
    ensures Entities(WrittenWorld(world, patches).value) == Entities(world) + SpawnedEntities(patches)
  {
    SpawnAllAppends(world, patches);
  }

  /** A lone `move_camera` patch is written back: the world file's camera
      holds every key of the patch's data. */
  lemma MoveCameraIsWritten(world: World, p: Patch)
    requires p.kind == "move_camera"
    requires "camera" !in world || world["camera"].JObj?
    ensures WrittenWorld(world, [p]).Some?
    ensures var w := WrittenWorld(world, [p]).value;
      && "camera" in w && w["camera"].JObj?
      && forall k :: k in p.data ==> k in w["camera"].fields && w["camera"].fields[k] == p.data[k]
  {
    MoveCameraMerges(world, p);
    assert ApplyAll(world, [p]) == ApplyAll(ApplyPatch(world, p).world, []);
  }

  // ---------------------------------------------------------------------------
  // load_patches
  // ---------------------------------------------------------------------------

  /** The raw records one patch file contributes: the items of a list
      payload, or the single object. */
  function FileItems(payload: Json): seq<Json> {
    if payload.JArr? then payload.items else [payload]
  }

  /** All raw records of the files, in file order and then item order. */
  function Flatten(payloads: seq<Json>): seq<Json>
    decreases |payloads|
  {
    if |payloads| == 0 then []
    else Flatten(payloads[..|payloads| - 1]) + FileItems(payloads[|payloads| - 1])
  }

  /** `patches` are the validated forms of `raws`, one for one. */
  predicate ParsedAs(raws: seq<Json>, patches: seq<Patch>) {
    |raws| == |patches| && forall i :: 0 <= i < |raws| ==> FromRaw(raws[i]) == Ok(patches[i])
  }

  /** `i` is the first record that fails validation, and `e` its error. */
  predicate FirstFailure(raws: seq<Json>, i: int, e: PyError) {
    && 0 <= i < |raws|
    && FromRaw(raws[i]) == Err(e)
    && forall j :: 0 <= j < i ==> FromRaw(raws[j]).Ok?
  }

  /** `load_patches` over the parsed payload of each file: every record is
      validated in order and the first invalid one raises. */
  method LoadPatches(payloads: seq<Json>) returns (r: Result<seq<Patch>, PyError>)
    ensures r.Ok? <==> forall i :: 0 <= i < |Flatten(payloads)| ==> FromRaw(Flatten(payloads)[i]).Ok?
    ensures r.Ok? ==> ParsedAs(Flatten(payloads), r.value)
    ensures r.Err? ==> exists i :: FirstFailure(Flatten(payloads), i, r.error)
  {
    var patches: seq<Patch> := [];
    var f := 0;
    while f < |payloads|
      invariant 0 <= f <= |payloads|
      invariant ParsedAs(Flatten(payloads[..f]), patches)
    {
      var items := FileItems(payloads[f]);
      FlattenStep(payloads, f);
      var j := 0;
      while j < |items|
        invariant 0 <= j <= |items|
        invariant ParsedAs(Flatten(payloads[..f]) + items[..j], patches)
      {
        var p := FromRaw(items[j]);
        if p.Err? {
          FailureInPrefix(payloads, f, j, patches);
          return Err(p.error);
        }
        assert items[..j + 1] == items[..j] + [items[j]];
        patches := patches + [p.value];
        j := j + 1;
      }
      assert items[..j] == items;
      f := f + 1;
    }
    assert payloads[..f] == payloads;
    return Ok(patches);
  }

  lemma FlattenStep(payloads: seq<Json>, f: nat)
    requires f < |payloads|
    ensures Flatten(payloads[..f + 1]) == Flatten(payloads[..f]) + FileItems(payloads[f])
  {
    assert payloads[..f + 1][..f] == payloads[..f];
  }

  /** A failing record found while reading file `f` is the first failing
      record of all files. */
  lemma FailureInPrefix(payloads: seq<Json>, f: nat, j: nat, patches: seq<Patch>)
    requires f < |payloads| && j < |FileItems(payloads[f])|
    requires ParsedAs(Flatten(payloads[..f]) + FileItems(payloads[f])[..j], patches)
    requires FromRaw(FileItems(payloads[f])[j]).Err?
    ensures FirstFailure(Flatten(payloads), |patches|, FromRaw(FileItems(payloads[f])[j]).error)
    ensures !forall i :: 0 <= i < |Flatten(payloads)| ==> FromRaw(Flatten(payloads)[i]).Ok?
  {
    FlattenStep(payloads, f);
    FlattenPrefix(payloads, f + 1);
    var all := Flatten(payloads);
    var upto := Flatten(payloads[..f + 1]);
    var items := FileItems(payloads[f]);
    var k := |patches|;
    assert upto == Flatten(payloads[..f]) + items;
    assert upto[k] == items[j];
    assert all[..|upto|] == upto;
    assert all[k] == items[j];
    forall i | 0 <= i < k
      ensures FromRaw(all[i]).Ok?
    {
      assert all[i] == upto[i];
      assert upto[i] == (Flatten(payloads[..f]) + items[..j])[i];
    }
  }

  /** The records of the first `k` files are a prefix of all records. */
  lemma {:induction false} FlattenPrefix(payloads: seq<Json>, k: nat)
    requires k <= |payloads|
    ensures |Flatten(payloads[..k])| <= |Flatten(payloads)|
    ensures Flatten(payloads)[..|Flatten(payloads[..k])|] == Flatten(payloads[..k])
    decreases |payloads| - k
  {
    if k == |payloads| {
      assert payloads[..k] == payloads;
    } else {
      FlattenPrefix(payloads, k + 1);
      assert payloads[..k + 1][..k] == payloads[..k];
      assert Flatten(payloads[..k + 1]) == Flatten(payloads[..k]) + FileItems(payloads[k]);
    }
  }

  /** A list payload contributes its items in order; any other payload
      contributes itself as a single record. */
  lemma FlattenOneFile(payload: Json)
    ensures payload.JArr? ==> Flatten([payload]) == payload.items
    ensures !payload.JArr? ==> Flatten([payload]) == [payload]
  {
    assert [payload][..0] == [];
  }

  // ---------------------------------------------------------------------------
  // discover_patch_files
  // ---------------------------------------------------------------------------

  /** A patch directory as the file system shows it: whether it exists and
      the names of its entries. */
  datatype PatchDir = PatchDir(path: string, present: bool, entries: seq<string>)

  /** Where a patch file comes from. */
  datatype PatchSource = CliPath(arg: string) | DirEntry(dir: string, name: string)

  /** The file names of directory entries, in order (empty for a command-line path). */
  function EntryNames(r: seq<PatchSource>): seq<string> {
    seq(|r|, i requires 0 <= i < |r| => if r[i].DirEntry? then r[i].name else "")
  }

  predicate EndsWith(s: string, suffix: string) {
    |suffix| <= |s| && s[|s| - |suffix|..] == suffix
  }

  /** The names the glob `*.json` matches. */
  function JsonNames(entries: seq<string>): (r: seq<string>)
    ensures forall n :: n in r <==> n in entries && EndsWith(n, ".json")
    ensures multiset(r) <= multiset(entries)
    decreases |entries|
  {
    if |entries| == 0 then []
    else
      assert multiset(entries) == multiset([entries[0]]) + multiset(entries[1..]) by {
        assert entries == [entries[0]] + entries[1..];
      }
      if EndsWith(entries[0], ".json") then [entries[0]] + JsonNames(entries[1..])
      else JsonNames(entries[1..])
  }

  /** Code-point lexicographic order, as Python compares strings. */
  predicate StrLe(a: string, b: string)
    decreases |a|
  {
    |a| == 0 || (|b| > 0 && (a[0] < b[0] || (a[0] == b[0] && StrLe(a[1..], b[1..]))))
  }

  lemma {:induction false} StrLeTotal(a: string, b: string)
    ensures StrLe(a, b) || StrLe(b, a)
    decreases |a|
  {
    if |a| > 0 && |b| > 0 && a[0] == b[0] {
      StrLeTotal(a[1..], b[1..]);
    }
  }

  predicate SortedStrings(s: seq<string>) {
    forall i :: 0 <= i < |s| - 1 ==> StrLe(s[i], s[i + 1])
  }

  function Insert(x: string, s: seq<string>): (r: seq<string>)
    requires SortedStrings(s)
    ensures SortedStrings(r)
    ensures multiset(r) == multiset(s) + multiset{x}
    ensures |r| > 0 && (r[0] == x || (|s| > 0 && r[0] == s[0]))
    decreases |s|
  {
    if |s| == 0 then [x]
    else if StrLe(x, s[0]) then [x] + s
    else
      StrLeTotal(x, s[0]);
      var tail := Insert(x, s[1..]);
      assert s == [s[0]] + s[1..];
      [s[0]] + tail
  }

  /** Insertion sort of names (Python's `sorted` on names of one directory). */
  function SortStrings(s: seq<string>): (r: seq<string>)
    ensures SortedStrings(r)
    ensures multiset(r) == multiset(s)
    decreases |s|
  {
    if |s| == 0 then []
    else
      assert s == [s[0]] + s[1..];
      Insert(s[0], SortStrings(s[1..]))
  }

  /** Directory entries for `names` under `path`, in order. */
  function EntriesUnder(path: string, names: seq<string>): (r: seq<PatchSource>)
    ensures |r| == |names|
    ensures forall i :: 0 <= i < |r| ==> r[i] == DirEntry(path, names[i])
    ensures EntryNames(r) == names
  {
    seq(|names|, i requires 0 <= i < |names| => DirEntry(path, names[i]))
  }

  function DiscoverPatchFiles(args: seq<string>, dir: Option<PatchDir>): (r: seq<PatchSource>)
    // command-line paths win, in the order given
    ensures |args| > 0 ==> r == seq(|args|, i requires 0 <= i < |args| => CliPath(args[i]))
    // otherwise the sorted `*.json` files of an existing directory
    ensures |args| == 0 && dir.Some? && dir.value.present ==>
      && (forall i :: 0 <= i < |r| ==> r[i].DirEntry? && r[i].dir == dir.value.path)
      && SortedStrings(EntryNames(r))
      && multiset(EntryNames(r)) == multiset(JsonNames(dir.value.entries))
    ensures |args| == 0 && (dir.None? || !dir.value.present) ==> r == []
  {
    if |args| > 0 then seq(|args|, i requires 0 <= i < |args| => CliPath(args[i]))
    else if dir.Some? && dir.value.present then
      EntriesUnder(dir.value.path, SortStrings(JsonNames(dir.value.entries)))
    else []
  }

  /** A discovered directory file is always a `*.json` entry of that directory. */
  lemma DiscoveredAreJsonEntries(dir: PatchDir, k: nat)
    requires dir.present
    requires k < |DiscoverPatchFiles([], Some(dir))|
    ensures var e := DiscoverPatchFiles([], Some(dir))[k];
      e.DirEntry? && e.name in dir.entries && EndsWith(e.name, ".json")
  {
    var r := DiscoverPatchFiles([], Some(dir));
    var names := EntryNames(r);
    assert names[k] in multiset(names);
    assert names[k] in multiset(JsonNames(dir.entries));
  }
}
