/** The command router's text-to-patch translation: a normalised command is
    looked up in fixed tables and turned into a list of patch records
    `{"id", "type", "data"}` for the runtime to apply. */
module RouterCommands {
  import opened Json
  import opened TextNormalize
  import RuntimeMain
  import Base

  const DefaultEntityId := "entity:cube:001"

  /** A patch record as the router emits it. */
  function MakePatch(id: string, kind: string, data: map<string, Json>): Json {
    JObj(map["id" := JStr(id), "type" := JStr(kind), "data" := JObj(data)])
  }

  /** A one-unit displacement `(dx, dy, dz)`. */
  datatype Vector = Vector(dx: real, dy: real, dz: real)

  /** Exactly one axis moves, by plus or minus one. */
  predicate IsUnitStep(v: Vector) {
    || (v.dx in {1.0, -1.0} && v.dy == 0.0 && v.dz == 0.0)
    || (v.dx == 0.0 && v.dy in {1.0, -1.0} && v.dz == 0.0)
    || (v.dx == 0.0 && v.dy == 0.0 && v.dz in {1.0, -1.0})
  }

  const MoveVectors: map<string, Vector> := map[
    "move cube up" := Vector(0.0, 1.0, 0.0),
    "move cube down" := Vector(0.0, -1.0, 0.0),
    "move cube left" := Vector(-1.0, 0.0, 0.0),
    "move cube right" := Vector(1.0, 0.0, 0.0),
    "move cube forward" := Vector(0.0, 0.0, 1.0),
    "move cube back" := Vector(0.0, 0.0, -1.0)
  ]

  const ColorMap: map<string, seq<real>> := map[
    "make cube red" := [1.0, 0.0, 0.0],
    "make cube blue" := [0.0, 0.0, 1.0],
    "make cube green" := [0.0, 1.0, 0.0]
  ]

  function MoveData(v: Vector): map<string, Json> {
    map["dx" := JNum(v.dx), "dy" := JNum(v.dy), "dz" := JNum(v.dz)]
  }

  function ColorJson(c: seq<real>): Json {
    JArr(seq(|c|, i requires 0 <= i < |c| => JNum(c[i])))
  }

  function ColorData(c: seq<real>): map<string, Json> {
    map["color" := ColorJson(c)]
  }

  /** The three patches that spawn a cube under `id`: spawn it, lift it one
      unit, paint it white. */
  function SpawnPatches(id: string): seq<Json> {
    [ MakePatch(id, "spawn_entity", map["kind" := JStr("cube")]),
      MakePatch(id, "move_entity", MoveData(Vector(0.0, 1.0, 0.0))),
      MakePatch(id, "set_color", ColorData([1.0, 1.0, 1.0])) ]
  }

  function DeletePatch(id: string): Json {
    MakePatch(id, "delete_entity", map[])
  }

  /** Every command the router understands, in normalised form. */
  const Recognised: set<string> := MoveVectors.Keys + ColorMap.Keys + {"spawn cube", "delete cube"}

  /** The table lookup on an already normalised command. */
  function PatchesFor(normalized: string): seq<Json> {
    if normalized in MoveVectors then
      [MakePatch(DefaultEntityId, "move_entity", MoveData(MoveVectors[normalized]))]
    else if normalized == "spawn cube" then SpawnPatches(DefaultEntityId)
    else if normalized == "delete cube" then [DeletePatch(DefaultEntityId)]
    else if normalized in ColorMap then
      [MakePatch(DefaultEntityId, "set_color", ColorData(ColorMap[normalized]))]
    else []
  }

  function TextToPatches(text: string): seq<Json> {
    PatchesFor(Normalize(text))
  }

  // ---------------------------------------------------------------------------
  // Reading router output back as runtime patches
  // ---------------------------------------------------------------------------

  predicate AllWellFormed(ps: seq<Json>) {
    forall i :: 0 <= i < |ps| ==> RuntimeMain.IsWellFormed(ps[i])
  }

  /** The patches the runtime's `from_raw` reads from router output. */
  function Decoded(ps: seq<Json>): (r: seq<RuntimeMain.Patch>)
    requires AllWellFormed(ps)
    ensures |r| == |ps|
    ensures forall i :: 0 <= i < |ps| ==> RuntimeMain.FromRaw(ps[i]) == Base.Ok(r[i])
  {
    seq(|ps|, i requires 0 <= i < |ps| => RuntimeMain.FromRaw(ps[i]).value)
  }

  /** A record built by `MakePatch` is the serialised form of its patch. */
  lemma MakePatchDecodes(id: string, kind: string, data: map<string, Json>)
    ensures MakePatch(id, kind, data) == RuntimeMain.ToRaw(RuntimeMain.Patch(id, kind, data))
    ensures RuntimeMain.IsWellFormed(MakePatch(id, kind, data))
    ensures RuntimeMain.FromRaw(MakePatch(id, kind, data)) == Base.Ok(RuntimeMain.Patch(id, kind, data))
  {
    RuntimeMain.FromRawToRaw(RuntimeMain.Patch(id, kind, data));
  }

  /** The spawn sequence, read back by the runtime. */
  lemma SpawnPatchesDecode(id: string)
    ensures AllWellFormed(SpawnPatches(id))
    ensures Decoded(SpawnPatches(id)) == [
      RuntimeMain.Patch(id, "spawn_entity", map["kind" := JStr("cube")]),
      RuntimeMain.Patch(id, "move_entity", MoveData(Vector(0.0, 1.0, 0.0))),
      RuntimeMain.Patch(id, "set_color", ColorData([1.0, 1.0, 1.0]))]
  {
    MakePatchDecodes(id, "spawn_entity", map["kind" := JStr("cube")]);
    MakePatchDecodes(id, "move_entity", MoveData(Vector(0.0, 1.0, 0.0)));
    MakePatchDecodes(id, "set_color", ColorData([1.0, 1.0, 1.0]));
  }

  // ---------------------------------------------------------------------------
  // Properties
  // ---------------------------------------------------------------------------

  /** Every record the router emits has string `id` and `type` and an object
      `data`, so the runtime's validation accepts it. */
  lemma OutputIsWellFormed(text: string)
    ensures AllWellFormed(TextToPatches(text))
  {
    var n := Normalize(text);
    if n in MoveVectors {
      MakePatchDecodes(DefaultEntityId, "move_entity", MoveData(MoveVectors[n]));
    } else if n == "spawn cube" {
      SpawnPatchesDecode(DefaultEntityId);
    } else if n == "delete cube" {
      MakePatchDecodes(DefaultEntityId, "delete_entity", map[]);
    } else if n in ColorMap {
      MakePatchDecodes(DefaultEntityId, "set_color", ColorData(ColorMap[n]));
    }
  }

  /** The result depends only on the normalised text: case and spacing never
      matter. */
  lemma DependsOnlyOnNormalized(text: string)
    ensures TextToPatches(Normalize(text)) == TextToPatches(text)
    ensures TextToPatches(Lower(text)) == TextToPatches(text)
  {
    NormalizeIdempotent(text);
    NormalizeIgnoresCase(text);
  }

  /** The six move phrases are exactly the six unit steps, one each. */
  lemma MoveTableIsUnitSteps()
    ensures |MoveVectors| == 6
    ensures forall p :: p in MoveVectors ==> IsUnitStep(MoveVectors[p])
    ensures forall p, q :: p in MoveVectors && q in MoveVectors && p != q ==> MoveVectors[p] != MoveVectors[q]
  {
  }

  /** A move phrase yields exactly one `move_entity` patch for the default
      entity carrying a unit step. */
  lemma MoveCommand(text: string)
    requires Normalize(text) in MoveVectors
    ensures var r := TextToPatches(text);
      && |r| == 1
      && Decoded(r) == [RuntimeMain.Patch(DefaultEntityId, "move_entity", MoveData(MoveVectors[Normalize(text)]))]
      && IsUnitStep(MoveVectors[Normalize(text)])
  {
    MakePatchDecodes(DefaultEntityId, "move_entity", MoveData(MoveVectors[Normalize(text)]));
    MoveTableIsUnitSteps();
  }

  /** A colour phrase yields exactly one `set_color` patch for the default
      entity carrying the mapped colour. */
  lemma ColorCommand(text: string)
    requires Normalize(text) in ColorMap
    ensures var r := TextToPatches(text);
      && |r| == 1
      && Decoded(r) == [RuntimeMain.Patch(DefaultEntityId, "set_color", ColorData(ColorMap[Normalize(text)]))]
  {
    MakePatchDecodes(DefaultEntityId, "set_color", ColorData(ColorMap[Normalize(text)]));
  }

  /** `spawn cube` yields `spawn_entity`, `move_entity`, `set_color`, in that
      order, all for the default entity. */
  lemma SpawnCommand(text: string)
    requires Normalize(text) == "spawn cube"
    ensures var d := Decoded(TextToPatches(text));
      && |d| == 3
      && d[0].kind == "spawn_entity" && d[1].kind == "move_entity" && d[2].kind == "set_color"
      && (forall i :: 0 <= i < 3 ==> d[i].id == DefaultEntityId)
  {
    SpawnPatchesDecode(DefaultEntityId);
  }

  /** `delete cube` yields one `delete_entity` patch with empty data. */
  lemma DeleteCommand(text: string)
    requires Normalize(text) == "delete cube"
    ensures Decoded(TextToPatches(text)) == [RuntimeMain.Patch(DefaultEntityId, "delete_entity", map[])]
  {
    MakePatchDecodes(DefaultEntityId, "delete_entity", map[]);
  }

  /** The result is non-empty exactly for the recognised commands. */
  lemma NonEmptyIffRecognised(text: string)
    ensures |TextToPatches(text)| > 0 <==> Normalize(text) in Recognised
  {
  }

  /** Joining lower-case words gives text that is already normalised. */
  lemma {:induction false} NormalizeOfWords(ws: seq<string>)
    requires forall i :: 0 <= i < |ws| ==> IsWord(ws[i]) && LowerFixed(ws[i])
    ensures Normalize(Join(ws)) == Join(ws)
  {
    JoinKeepsLower(ws);
    LowerOfLowerFixed(Join(ws));
    WordsOfJoin(ws);
  }

  /** A three-word phrase of lower-case words is its own normalised form. */
  lemma PhraseIsNormal(a: string, b: string, c: string)
    requires IsWord(a) && IsWord(b) && IsWord(c)
    requires LowerFixed(a) && LowerFixed(b) && LowerFixed(c)
    ensures Normalize(a + " " + b + " " + c) == a + " " + b + " " + c
  {
    var ws := [a, b, c];
    assert ws[1..] == [b, c] && [b, c][1..] == [c];
    assert Join([c]) == c;
    assert Join([b, c]) == b + " " + c;
    assert Join(ws) == a + " " + (b + " " + c);
    assert a + " " + (b + " " + c) == a + " " + b + " " + c;
    NormalizeOfWords(ws);
  }

  lemma PairIsNormal(a: string, b: string)
    requires IsWord(a) && IsWord(b)
    requires LowerFixed(a) && LowerFixed(b)
    ensures Normalize(a + " " + b) == a + " " + b
  {
    var ws := [a, b];
    assert ws[1..] == [b];
    assert Join(ws) == a + " " + b;
    NormalizeOfWords(ws);
  }

  /** `move cube <dir>` is its own normalised form for a lower-case `dir`. */
  lemma MovePhraseIsNormal(dir: string)
    requires |dir| > 0 && forall i :: 0 <= i < |dir| ==> 'a' <= dir[i] <= 'z'
    ensures Normalize("move cube " + dir) == "move cube " + dir
  {
    LowercaseWord("move");
    LowercaseWord("cube");
    LowercaseWord(dir);
    assert "move cube " + dir == "move" + " " + "cube" + " " + dir;
    PhraseIsNormal("move", "cube", dir);
  }

  /** `make cube <colour>` is its own normalised form for a lower-case
      `colour`. */
  lemma ColorPhraseIsNormal(colour: string)
    requires |colour| > 0 && forall i :: 0 <= i < |colour| ==> 'a' <= colour[i] <= 'z'
    ensures Normalize("make cube " + colour) == "make cube " + colour
  {
    LowercaseWord("make");
    LowercaseWord("cube");
    LowercaseWord(colour);
    assert "make cube " + colour == "make" + " " + "cube" + " " + colour;
    PhraseIsNormal("make", "cube", colour);
  }

  /** `<verb> cube` is its own normalised form for a lower-case `verb`. */
  lemma CubePairIsNormal(verb: string)
    requires |verb| > 0 && forall i :: 0 <= i < |verb| ==> 'a' <= verb[i] <= 'z'
    ensures Normalize(verb + " cube") == verb + " cube"
  {
    LowercaseWord(verb);
    LowercaseWord("cube");
    assert verb + " cube" == verb + " " + "cube";
    PairIsNormal(verb, "cube");
  }

  lemma MoveKeyIsNormal(p: string)
    requires p in MoveVectors
    ensures Normalize(p) == p
  {
    if p == "move cube up" {
      assert p == "move cube " + "up";
      MovePhraseIsNormal("up");
    } else if p == "move cube down" {
      assert p == "move cube " + "down";
      MovePhraseIsNormal("down");
    } else if p == "move cube left" {
      assert p == "move cube " + "left";
      MovePhraseIsNormal("left");
    } else if p == "move cube right" {
      assert p == "move cube " + "right";
      MovePhraseIsNormal("right");
    } else if p == "move cube forward" {
      assert p == "move cube " + "forward";
      MovePhraseIsNormal("forward");
    } else {
      assert p == "move cube " + "back";
      MovePhraseIsNormal("back");
    }
  }

  lemma ColorKeyIsNormal(p: string)
    requires p in ColorMap
    ensures Normalize(p) == p
  {
    if p == "make cube red" {
      assert p == "make cube " + "red";
      ColorPhraseIsNormal("red");
    } else if p == "make cube blue" {
      assert p == "make cube " + "blue";
      ColorPhraseIsNormal("blue");
    } else {
      assert p == "make cube " + "green";
      ColorPhraseIsNormal("green");
    }
  }

  /** Every phrase of the table, typed as is, is its own normalised form and
      so reaches its table entry: no recognised key is dead. */
  lemma RecognisedPhrasesAreReachable()
    ensures forall p :: p in Recognised ==> Normalize(p) == p && |TextToPatches(p)| > 0
  {
    forall p | p in Recognised
      ensures Normalize(p) == p && |TextToPatches(p)| > 0
    {
      if p in MoveVectors {
        MoveKeyIsNormal(p);
      } else if p in ColorMap {
        ColorKeyIsNormal(p);
      } else if p == "spawn cube" {
        assert p == "spawn" + " cube";
        CubePairIsNormal("spawn");
      } else {
        assert p == "delete" + " cube";
        CubePairIsNormal("delete");
      }
      NonEmptyIffRecognised(p);
    }
  }
}
