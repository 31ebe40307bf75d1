/*
 * The exporter's driver (gltf2_export.py): `prepare` runs the filter pass
 * and parks the scene on frame 0, `save` splits the filtered data into
 * export units, writes each unit as a .gltf file (plus an optional side-car
 * .bin) or as a single .glb container, and `finish` releases the temporary
 * meshes and restores the frame.
 *
 * Building the glTF document and turning it into JSON text is a parameter
 * (`produce`): it receives the export settings as they stand for one unit
 * and the JSON layout options, and returns the UTF-8 text and the binary
 * buffer.  Files are modelled as the sequence of whole writes issued.
 */
module Export {
  import opened Wrappers
  import opened Bytes
  import Glb
  import Filter

  datatype Format = Ascii | Binary

  /** The export settings `save` reads, besides the filter's own. */
  datatype ExportSettings = ExportSettings(
    filter: Filter.FilterOptions,
    format: Format,          // gltf_format
    strip: bool,             // gltf_strip
    separate: bool,          // gltf_separate
    embedBuffers: bool,      // gltf_embed_buffers
    currentFrame: bool,      // gltf_current_frame
    filepath: string,        // gltf_filepath
    binaryFilename: string,  // gltf_binaryfilename
    fileDirectory: string)   // gltf_filedirectory

  //
  // JSON layout
  //

  /** The keyword arguments handed to `json.dumps`. */
  datatype JsonOptions = JsonOptions(indent: Option<nat>, itemSeparator: string, keySeparator: string, sortKeys: bool)

  /**
   * Keys are always sorted and items separated by a bare comma; only an
   * unstripped ASCII export is indented (by four) and puts spaces around
   * the key colon, every other export is compact.
   */
  function EncodeOptions(format: Format, strip: bool): (o: JsonOptions)
    ensures o.sortKeys && o.itemSeparator == ","
    ensures o.indent.Some? <==> format == Ascii && !strip
    ensures o.indent.Some? ==> o.indent.value == 4 && o.keySeparator == " : "
    ensures o.indent.None? ==> o.keySeparator == ":"
  {
    if format == Ascii && !strip then JsonOptions(Some(4), ",", " : ", true)
    else JsonOptions(None, ",", ":", true)
  }

  //
  // File names: `str.replace('{NAME}', name)`
  //

  const Token: string := "{NAME}"

  predicate TokenAt(s: string, i: nat)
  {
    i + |Token| <= |s| && s[i..i + |Token|] == Token
  }

  predicate HasToken(s: string)
  {
    exists i: nat :: i < |s| && TokenAt(s, i)
  }

  /** Every occurrence of `{NAME}` replaced by `name`, scanning left to right. */
  function Substitute(s: string, name: string): string
    decreases |s|
  {
    if |s| < |Token| then s
    else if s[..|Token|] == Token then name + Substitute(s[|Token|..], name)
    else [s[0]] + Substitute(s[1..], name)
  }

  lemma NoTokenTail(s: string)
    requires |s| > 0 && !HasToken(s)
    ensures !HasToken(s[1..])
  {
    forall i: nat | TokenAt(s[1..], i)
      ensures false
    {
      assert s[1..][i..i + |Token|] == s[i + 1..i + 1 + |Token|];
      assert TokenAt(s, i + 1);
    }
  }

  /** A name without the placeholder is used as it is. */
  lemma {:induction false} SubstituteNoToken(s: string, name: string)
    requires !HasToken(s)
    ensures Substitute(s, name) == s
    decreases |s|
  {
    if |s| >= |Token| {
      assert !TokenAt(s, 0);
      NoTokenTail(s);
      SubstituteNoToken(s[1..], name);
      assert [s[0]] + s[1..] == s;
    }
  }

  /** A name that does not start with the placeholder keeps its first character. */
  lemma SubstituteSkip(s: string, name: string)
    requires |s| >= |Token| && s[..|Token|] != Token
    ensures Substitute(s, name) == [s[0]] + Substitute(s[1..], name)
  {
  }

  /** A non-empty prefix without the placeholder cannot start one, even running into a following `{NAME}`. */
  lemma NotTokenFirst(a: string, b: string)
    requires a != [] && !HasToken(a)
    ensures (a + Token + b)[..|Token|] != Token
  {
    var s := a + Token + b;
    if |a| >= |Token| {
      assert s[..|Token|] == a[..|Token|];
      assert !TokenAt(a, 0);
    } else {
      assert s[|a|] == '{';
      assert Token[|a|] != '{';
    }
  }

  /**
   * The first placeholder is replaced where it stands, and the rest of the
   * name is substituted in the same way: `{NAME}` cannot overlap itself.
   */
  lemma {:induction false} SubstituteFirst(a: string, b: string, name: string)
    requires !HasToken(a)
    ensures Substitute(a + Token + b, name) == a + name + Substitute(b, name)
    decreases |a|
  {
    if a == [] {
      SubstituteToken(b, name);
      assert a + Token + b == Token + b;
    } else {
      NotTokenFirst(a, b);
      NoTokenTail(a);
      SubstituteFirst(a[1..], b, name);
      SubstituteSkip(a + Token + b, name);
      SkipStep(a, b, name, Substitute(b, name));
    }
  }

  /** A name that starts with the placeholder has it replaced. */
  lemma SubstituteToken(b: string, name: string)
    ensures Substitute(Token + b, name) == name + Substitute(b, name)
  {
    var s := Token + b;
    assert s[..|Token|] == Token;
    assert s[|Token|..] == b;
  }

  /** The sequence bookkeeping of one skipped character. */
  lemma SkipStep(a: string, b: string, name: string, rest: string)
    requires a != [] && Substitute(a[1..] + Token + b, name) == a[1..] + name + rest
    requires Substitute(a + Token + b, name) == [a[0]] + Substitute((a + Token + b)[1..], name)
    ensures Substitute(a + Token + b, name) == a + name + rest
  {
    assert (a + Token + b)[1..] == a[1..] + Token + b;
    assert [a[0]] + (a[1..] + name + rest) == a + name + rest by {
      assert [a[0]] + a[1..] == a;
    }
  }

  //
  // Writing one unit
  //

  /** One `file.write` of a whole file, under its path. */
  datatype Write = Write(path: string, data: seq<byte>)

  /** What the generator hands back for one unit: the encoded JSON text and `gltf_binary`. */
  datatype Generated = Generated(json: seq<byte>, binary: seq<byte>)

  /** The files written so far, and false once a write has raised. */
  datatype Outcome = Outcome(writes: seq<Write>, ok: bool)

  const Newline: byte := 0x0A

  /** The files written for one unit whose object name is `objectName`. */
  function UnitOutput(s: ExportSettings, objectName: string, gen: Generated): Outcome
  {
    var filePath := Substitute(s.filepath, objectName);
    var binaryPath := Substitute(s.binaryFilename, objectName);
    match s.format
    case Ascii =>
      var gltf := Write(filePath, gen.json + [Newline]);
      if |gen.binary| > 0 && !s.embedBuffers then Outcome([gltf, Write(s.fileDirectory + binaryPath, gen.binary)], true)
      else Outcome([gltf], true)
    case Binary =>
      if Glb.Packable(gen.json, gen.binary) then Outcome([Write(filePath, Glb.Pack(gen.json, gen.binary))], true)
      else Outcome([Write(filePath, Glb.Magic + U32LE(Glb.Version))], false)
  }

  /**
   * An ASCII export never fails: it writes the JSON text and a newline to
   * the named .gltf file, and the buffer to the named side-car file exactly
   * when the buffer is not empty and not embedded.
   */
  lemma AsciiUnit(s: ExportSettings, objectName: string, gen: Generated)
    requires s.format == Ascii
    ensures var r := UnitOutput(s, objectName, gen);
      r.ok && 1 <= |r.writes| <= 2 &&
      r.writes[0] == Write(Substitute(s.filepath, objectName), gen.json + [Newline]) &&
      (|r.writes| == 2 <==> |gen.binary| > 0 && !s.embedBuffers) &&
      (|r.writes| == 2 ==>
         r.writes[1] == Write(s.fileDirectory + Substitute(s.binaryFilename, objectName), gen.binary))
  {
  }

  /**
   * A binary export writes one file under the substituted name, and fails
   * exactly when the container does not fit 32-bit lengths.  The file it
   * writes otherwise reads back as a GLB container whose JSON chunk is the
   * JSON text followed by fewer than four spaces and whose BIN chunk,
   * present exactly when the buffer is not empty, is the buffer followed
   * by fewer than four zero bytes.
   */
  lemma BinaryUnit(s: ExportSettings, objectName: string, gen: Generated)
    requires s.format == Binary
    ensures var r := UnitOutput(s, objectName, gen);
      |r.writes| == 1 && r.writes[0].path == Substitute(s.filepath, objectName) &&
      (r.ok <==> Glb.Packable(gen.json, gen.binary)) &&
      (r.ok ==> var c := Glb.Parse(r.writes[0].data);
                c.Ok? &&
                var json, bin := c.value.json, c.value.bin;
                |gen.json| <= |json| < |gen.json| + 4 && json[..|gen.json|] == gen.json &&
                (forall k :: |gen.json| <= k < |json| ==> json[k] == Glb.Space) &&
                (bin.Some? <==> |gen.binary| > 0) &&
                (bin.Some? ==>
                   |gen.binary| <= |bin.value| < |gen.binary| + 4 && bin.value[..|gen.binary|] == gen.binary &&
                   forall k :: |gen.binary| <= k < |bin.value| ==> bin.value[k] == Glb.Zero))
  {
    if Glb.Packable(gen.json, gen.binary) {
      var file := Glb.Pack(gen.json, gen.binary);
      assert UnitOutput(s, objectName, gen).writes[0].data == file;
      Glb.PackRoundTrip(gen.json, gen.binary);
    }
  }

  /** Whether buffers are embedded does not matter to a binary export. */
  lemma BinaryIgnoresEmbed(s: ExportSettings, objectName: string, gen: Generated)
    requires s.format == Binary
    ensures UnitOutput(s, objectName, gen) == UnitOutput(s.(embedBuffers := !s.embedBuffers), objectName, gen)
  {
  }

  /** The writes of one unit in `save`'s export loop, issued in the source's order. */
  method WriteUnit(s: ExportSettings, objectName: string, gen: Generated) returns (r: Outcome)
    ensures r == UnitOutput(s, objectName, gen)
  {
    var filePath := Substitute(s.filepath, objectName);
    var binaryPath := Substitute(s.binaryFilename, objectName);
    if s.format == Ascii {
      var writes := [Write(filePath, gen.json + [Newline])];
      if |gen.binary| > 0 && !s.embedBuffers {
        writes := writes + [Write(s.fileDirectory + binaryPath, gen.binary)];
      }
      r := Outcome(writes, true);
    } else {
      var file, ok := Glb.WriteGlb(gen.json, gen.binary);
      r := Outcome([Write(filePath, file)], ok);
    }
  }

  //
  // Export units
  //

  /** The name of the single unit of a non-split export. */
  const DefaultUnit: string := "__default"

  /** What one pass of the generator sees as `filtered_meshes` and `filtered_objects`. */
  datatype ExportUnit = ExportUnit(name: string, meshes: Filter.OrderedMap<Filter.MeshData>, objects: seq<nat>)

  /**
   * `name_mapping` with the default name stored under `__default`, in
   * place: every mesh key keeps its object name, except a mesh that is
   * itself named `__default`, whose entry the default name replaces.
   */
  function MeshMap(f: Filter.FilterResult): (r: map<string, string>)
    ensures r.Keys == f.nameMapping.Keys + {DefaultUnit}
    ensures r[DefaultUnit] == f.defaultName
    ensures forall k :: k in f.nameMapping && k != DefaultUnit ==> r[k] == f.nameMapping[k]
  {
    f.nameMapping[DefaultUnit := f.defaultName]
  }

  predicate Mapped(meshes: Filter.OrderedMap<Filter.MeshData>, meshMap: map<string, string>)
  {
    forall p :: 0 <= p < |meshes| ==> meshes[p].0 in meshMap
  }

  /** `mesh_obj_names`: the object name of each filtered mesh, in order. */
  function OwnerNames(meshes: Filter.OrderedMap<Filter.MeshData>, meshMap: map<string, string>): (r: seq<string>)
    requires Mapped(meshes, meshMap)
    ensures |r| == |meshes| && forall p :: 0 <= p < |r| ==> r[p] == meshMap[meshes[p].0]
  {
    seq(|meshes|, p requires 0 <= p < |meshes| => meshMap[meshes[p].0])
  }

  /** An object goes with the unit of `owner` if it is the owner or owns no mesh at all. */
  predicate InUnit(name: string, owner: string, owners: seq<string>)
  {
    name == owner || name !in owners
  }

  /** The filtered objects exported with the mesh whose object is `owner`. */
  function UnitObjects(objs: seq<Filter.BlenderObject>, objects: seq<nat>, owner: string, owners: seq<string>): seq<nat>
    requires Filter.InRange(objs, objects)
  {
    if objects == [] then []
    else
      var x := objects[|objects| - 1];
      UnitObjects(objs, objects[..|objects| - 1], owner, owners) + (if InUnit(objs[x].name, owner, owners) then [x] else [])
  }

  /**
   * A unit keeps, in their order, exactly the filtered objects that belong
   * with it, and each at most once if the filtered objects are distinct.
   */
  lemma {:induction false} UnitObjectsSpec(objs: seq<Filter.BlenderObject>, objects: seq<nat>, owner: string, owners: seq<string>)
    requires Filter.InRange(objs, objects)
    ensures var r := UnitObjects(objs, objects, owner, owners);
      |r| <= |objects| &&
      (forall x :: x in r ==> x in objects) &&
      (forall p :: 0 <= p < |objects| ==> (objects[p] in r <==> InUnit(objs[objects[p]].name, owner, owners))) &&
      (Filter.NoDuplicates(objects) ==> Filter.NoDuplicates(r))
  {
    if objects != [] {
      var init, x := objects[..|objects| - 1], objects[|objects| - 1];
      assert Filter.InRange(objs, init);
      UnitObjectsSpec(objs, init, owner, owners);
      var r0 := UnitObjects(objs, init, owner, owners);
      var r := UnitObjects(objs, objects, owner, owners);
      assert r == r0 + (if InUnit(objs[x].name, owner, owners) then [x] else []);
      forall p | 0 <= p < |objects|
        ensures objects[p] in r <==> InUnit(objs[objects[p]].name, owner, owners)
      {
        if p < |init| {
          assert objects[p] == init[p];
          if Filter.NoDuplicates(objects) {
            assert objects[p] != x;
          }
        }
      }
      if Filter.NoDuplicates(objects) {
        assert x !in init;
        assert x !in r0;
      }
    }
  }

  /**
   * `r` is `objects` read at the increasing positions `idx`, which are
   * exactly the positions whose object belongs with the unit of `owner`.
   */
  predicate KeptAt(objs: seq<Filter.BlenderObject>, objects: seq<nat>, owner: string, owners: seq<string>,
                   r: seq<nat>, idx: seq<nat>)
    requires Filter.InRange(objs, objects)
  {
    |idx| == |r| && Filter.Increasing(idx) &&
    (forall k :: 0 <= k < |idx| ==> idx[k] < |objects| && r[k] == objects[idx[k]]) &&
    (forall p :: 0 <= p < |objects| ==> (p in idx <==> InUnit(objs[objects[p]].name, owner, owners)))
  }

  /** The positions in `objects` of the objects that belong with the unit of `owner`, in increasing order. */
  ghost function KeptPositions(objs: seq<Filter.BlenderObject>, objects: seq<nat>, owner: string, owners: seq<string>): seq<nat>
    requires Filter.InRange(objs, objects)
  {
    if objects == [] then []
    else
      var n := |objects| - 1;
      KeptPositions(objs, objects[..n], owner, owners) + (if InUnit(objs[objects[n]].name, owner, owners) then [n] else [])
  }

  /** The kept positions increase and lie in `objects`. */
  lemma {:induction false} KeptPositionsIncrease(objs: seq<Filter.BlenderObject>, objects: seq<nat>, owner: string, owners: seq<string>)
    requires Filter.InRange(objs, objects)
    ensures var idx := KeptPositions(objs, objects, owner, owners);
      Filter.Increasing(idx) && forall k :: 0 <= k < |idx| ==> idx[k] < |objects|
  {
    if objects != [] {
      var n := |objects| - 1;
      assert Filter.InRange(objs, objects[..n]);
      KeptPositionsIncrease(objs, objects[..n], owner, owners);
    }
  }

  /** A position is kept exactly when its object belongs with the unit. */
  lemma {:induction false} KeptPositionsMember(objs: seq<Filter.BlenderObject>, objects: seq<nat>, owner: string, owners: seq<string>)
    requires Filter.InRange(objs, objects)
    ensures forall p :: 0 <= p < |objects| ==>
      (p in KeptPositions(objs, objects, owner, owners) <==> InUnit(objs[objects[p]].name, owner, owners))
  {
    if objects != [] {
      var n := |objects| - 1;
      var init := objects[..n];
      assert Filter.InRange(objs, init);
      KeptPositionsMember(objs, init, owner, owners);
      KeptPositionsIncrease(objs, init, owner, owners);
      var idx0 := KeptPositions(objs, init, owner, owners);
      var keep := InUnit(objs[objects[n]].name, owner, owners);
      assert KeptPositions(objs, objects, owner, owners) == idx0 + (if keep then [n] else []);
      assert n !in idx0;
      forall p | 0 <= p < n
        ensures p in idx0 <==> InUnit(objs[objects[p]].name, owner, owners)
      {
        assert objects[p] == init[p];
      }
    }
  }

  /** The unit's objects are `objects` read at the kept positions. */
  lemma {:induction false} UnitObjectsAt(objs: seq<Filter.BlenderObject>, objects: seq<nat>, owner: string, owners: seq<string>)
    requires Filter.InRange(objs, objects)
    ensures var r, idx := UnitObjects(objs, objects, owner, owners), KeptPositions(objs, objects, owner, owners);
      |idx| == |r| && forall k :: 0 <= k < |idx| ==> idx[k] < |objects| && r[k] == objects[idx[k]]
  {
    if objects != [] {
      var n := |objects| - 1;
      var init := objects[..n];
      assert Filter.InRange(objs, init);
      UnitObjectsAt(objs, init, owner, owners);
      var r0, idx0 := UnitObjects(objs, init, owner, owners), KeptPositions(objs, init, owner, owners);
      var r, idx := UnitObjects(objs, objects, owner, owners), KeptPositions(objs, objects, owner, owners);
      forall k | 0 <= k < |idx|
        ensures idx[k] < |objects| && r[k] == objects[idx[k]]
      {
        if k < |idx0| {
          assert idx[k] == idx0[k] && r[k] == r0[k];
          assert init[idx0[k]] == objects[idx0[k]];
        }
      }
    }
  }

  /**
   * A unit's objects are the filtered objects that belong with it, in the
   * filtered order: they are the filtered list read at increasing
   * positions, and those positions are exactly the ones whose object
   * belongs with the unit.
   */
  lemma UnitObjectsOrder(objs: seq<Filter.BlenderObject>, objects: seq<nat>, owner: string, owners: seq<string>)
    requires Filter.InRange(objs, objects)
    ensures KeptAt(objs, objects, owner, owners, UnitObjects(objs, objects, owner, owners), KeptPositions(objs, objects, owner, owners))
  {
    KeptPositionsIncrease(objs, objects, owner, owners);
    KeptPositionsMember(objs, objects, owner, owners);
    UnitObjectsAt(objs, objects, owner, owners);
  }

  /** The units of a split export: one per filtered mesh, holding that mesh alone. */
  function SplitUnits(objs: seq<Filter.BlenderObject>, meshes: Filter.OrderedMap<Filter.MeshData>, objects: seq<nat>,
                      meshMap: map<string, string>, n: nat): seq<ExportUnit>
    requires Mapped(meshes, meshMap) && Filter.InRange(objs, objects) && n <= |meshes|
  {
    if n == 0 then []
    else
      var (name, mesh) := meshes[n - 1];
      SplitUnits(objs, meshes, objects, meshMap, n - 1) +
        [ExportUnit(name, [(name, mesh)], UnitObjects(objs, objects, meshMap[name], OwnerNames(meshes, meshMap)))]
  }

  /** `mesh_list`. */
  function Units(objs: seq<Filter.BlenderObject>, meshes: Filter.OrderedMap<Filter.MeshData>, objects: seq<nat>,
                 meshMap: map<string, string>, separate: bool): seq<ExportUnit>
    requires Mapped(meshes, meshMap) && Filter.InRange(objs, objects)
  {
    if separate then SplitUnits(objs, meshes, objects, meshMap, |meshes|)
    else [ExportUnit(DefaultUnit, meshes, objects)]
  }

  lemma {:induction false} SplitUnitsSpec(objs: seq<Filter.BlenderObject>, meshes: Filter.OrderedMap<Filter.MeshData>, objects: seq<nat>,
                                          meshMap: map<string, string>, n: nat)
    requires Mapped(meshes, meshMap) && Filter.InRange(objs, objects) && n <= |meshes|
    ensures var us := SplitUnits(objs, meshes, objects, meshMap, n);
      |us| == n &&
      forall p :: 0 <= p < n ==>
        us[p].name == meshes[p].0 && us[p].meshes == [meshes[p]] &&
        us[p].objects == UnitObjects(objs, objects, meshMap[meshes[p].0], OwnerNames(meshes, meshMap))
  {
    if n > 0 {
      SplitUnitsSpec(objs, meshes, objects, meshMap, n - 1);
    }
  }

  /**
   * Without splitting there is one unit, `__default`, with everything.
   * Splitting gives one unit per filtered mesh, in order, named after the
   * mesh and holding only that mesh, with the objects whose name is that
   * mesh's object name or is the object name of no mesh; so a split export
   * without meshes produces no unit at all.
   */
  lemma UnitsSpec(objs: seq<Filter.BlenderObject>, meshes: Filter.OrderedMap<Filter.MeshData>, objects: seq<nat>,
                  meshMap: map<string, string>, separate: bool)
    requires Mapped(meshes, meshMap) && Filter.InRange(objs, objects)
    ensures var us := Units(objs, meshes, objects, meshMap, separate);
      var owners := OwnerNames(meshes, meshMap);
      (!separate ==> us == [ExportUnit(DefaultUnit, meshes, objects)]) &&
      (separate ==>
         |us| == |meshes| &&
         forall p :: 0 <= p < |us| ==>
           us[p].name == meshes[p].0 && us[p].meshes == [meshes[p]] &&
           forall q :: 0 <= q < |objects| ==>
             (objects[q] in us[p].objects <==> InUnit(objs[objects[q]].name, meshMap[meshes[p].0], owners)))
  {
    if separate {
      SplitUnitsSpec(objs, meshes, objects, meshMap, |meshes|);
      forall p | 0 <= p < |meshes|
        ensures var us := Units(objs, meshes, objects, meshMap, separate);
          forall q :: 0 <= q < |objects| ==>
            (objects[q] in us[p].objects <==> InUnit(objs[objects[q]].name, meshMap[meshes[p].0], OwnerNames(meshes, meshMap)))
      {
        UnitObjectsSpec(objs, objects, meshMap[meshes[p].0], OwnerNames(meshes, meshMap));
      }
    }
  }

  /**
   * `filtered_meshes` is a dictionary, so its keys are distinct, and so
   * are the names of the split units, which name the files.
   */
  lemma SplitNamesDistinct(objs: seq<Filter.BlenderObject>, meshes: Filter.OrderedMap<Filter.MeshData>, objects: seq<nat>,
                           meshMap: map<string, string>)
    requires Mapped(meshes, meshMap) && Filter.InRange(objs, objects) && Filter.UniqueKeys(meshes)
    ensures var us := Units(objs, meshes, objects, meshMap, true);
      forall p, q :: 0 <= p < q < |us| ==> us[p].name != us[q].name
  {
    UnitsSpec(objs, meshes, objects, meshMap, true);
  }

  /** When splitting with at least one mesh, every filtered object is exported by some unit. */
  lemma SplitCovers(objs: seq<Filter.BlenderObject>, meshes: Filter.OrderedMap<Filter.MeshData>, objects: seq<nat>,
                    meshMap: map<string, string>, q: nat)
    requires Mapped(meshes, meshMap) && Filter.InRange(objs, objects) && |meshes| > 0 && q < |objects|
    ensures var us := Units(objs, meshes, objects, meshMap, true);
      exists p :: 0 <= p < |us| && objects[q] in us[p].objects
  {
    var us := Units(objs, meshes, objects, meshMap, true);
    var owners := OwnerNames(meshes, meshMap);
    UnitsSpec(objs, meshes, objects, meshMap, true);
    var name := objs[objects[q]].name;
    if name in owners {
      var p :| 0 <= p < |owners| && owners[p] == name;
      assert objects[q] in us[p].objects;
    } else {
      assert objects[q] in us[0].objects;
    }
  }

  /** The inner loop of `save`'s split: the objects that go with one mesh. */
  method CollectUnitObjects(objs: seq<Filter.BlenderObject>, objects: seq<nat>, owner: string, owners: seq<string>)
    returns (unitObjects: seq<nat>)
    requires Filter.InRange(objs, objects)
    ensures unitObjects == UnitObjects(objs, objects, owner, owners)
  {
    unitObjects := [];
    for i := 0 to |objects|
      invariant Filter.InRange(objs, objects[..i])
      invariant unitObjects == UnitObjects(objs, objects[..i], owner, owners)
    {
      var o := objs[objects[i]];
      assert objects[..i + 1][..i] == objects[..i];
      if o.name == owner || o.name !in owners {
        unitObjects := unitObjects + [objects[i]];
      }
    }
    assert objects[..|objects|] == objects;
  }

  /** `save`'s planning loops, which build `mesh_list`. */
  method PlanUnits(objs: seq<Filter.BlenderObject>, meshes: Filter.OrderedMap<Filter.MeshData>, objects: seq<nat>,
                   meshMap: map<string, string>, separate: bool) returns (units: seq<ExportUnit>)
    requires Mapped(meshes, meshMap) && Filter.InRange(objs, objects)
    ensures units == Units(objs, meshes, objects, meshMap, separate)
  {
    if separate {
      var owners := OwnerNames(meshes, meshMap);
      units := [];
      for i := 0 to |meshes|
        invariant units == SplitUnits(objs, meshes, objects, meshMap, i)
      {
        var (name, mesh) := meshes[i];
        var unitObjects := CollectUnitObjects(objs, objects, meshMap[name], owners);
        units := units + [ExportUnit(name, [(name, mesh)], unitObjects)];
      }
    } else {
      units := [ExportUnit(DefaultUnit, meshes, objects)];
    }
  }

  //
  // The export loop
  //

  /**
   * The export settings the generator sees for `u`: its meshes and objects,
   * and `name_mapping` carrying the `__default` entry that `save` stores
   * through its alias.
   */
  function Scoped(f: Filter.FilterResult, u: ExportUnit, meshMap: map<string, string>): Filter.FilterResult
  {
    f.(meshes := u.meshes, objects := u.objects, nameMapping := meshMap)
  }

  /** What the generator returns for unit `u`. */
  function Generate(produce: (Filter.FilterResult, JsonOptions) -> Generated, s: ExportSettings, f: Filter.FilterResult,
                    u: ExportUnit, meshMap: map<string, string>): Generated
  {
    produce(Scoped(f, u, meshMap), EncodeOptions(s.format, s.strip))
  }

  predicate UnitsMapped(units: seq<ExportUnit>, meshMap: map<string, string>)
  {
    forall p :: 0 <= p < |units| ==> units[p].name in meshMap
  }

  /** The writes of the units in order, stopping after the first that raises. */
  function RunUnits(produce: (Filter.FilterResult, JsonOptions) -> Generated, s: ExportSettings, f: Filter.FilterResult,
                    units: seq<ExportUnit>, meshMap: map<string, string>): Outcome
    requires UnitsMapped(units, meshMap)
  {
    if units == [] then Outcome([], true)
    else
      var prev := RunUnits(produce, s, f, units[..|units| - 1], meshMap);
      if !prev.ok then prev
      else
        var u := units[|units| - 1];
        var out := UnitOutput(s, meshMap[u.name], Generate(produce, s, f, u, meshMap));
        Outcome(prev.writes + out.writes, out.ok)
  }

  /** An ASCII export always runs to the end. */
  lemma {:induction false} AsciiCompletes(produce: (Filter.FilterResult, JsonOptions) -> Generated, s: ExportSettings,
                                          f: Filter.FilterResult, units: seq<ExportUnit>, meshMap: map<string, string>)
    requires UnitsMapped(units, meshMap) && s.format == Ascii
    ensures RunUnits(produce, s, f, units, meshMap).ok
  {
    if units != [] {
      AsciiCompletes(produce, s, f, units[..|units| - 1], meshMap);
    }
  }

  /** The container of every unit fits 32-bit lengths. */
  predicate AllPackable(produce: (Filter.FilterResult, JsonOptions) -> Generated, s: ExportSettings,
                        f: Filter.FilterResult, units: seq<ExportUnit>, meshMap: map<string, string>)
  {
    forall p :: 0 <= p < |units| ==>
      var g := Generate(produce, s, f, units[p], meshMap); Glb.Packable(g.json, g.binary)
  }

  /** A binary export succeeds exactly when every unit's container fits 32-bit lengths. */
  lemma {:induction false} BinaryRunOk(produce: (Filter.FilterResult, JsonOptions) -> Generated, s: ExportSettings,
                                       f: Filter.FilterResult, units: seq<ExportUnit>, meshMap: map<string, string>)
    requires UnitsMapped(units, meshMap) && s.format == Binary
    ensures RunUnits(produce, s, f, units, meshMap).ok <==> AllPackable(produce, s, f, units, meshMap)
  {
    if units != [] {
      var init, u := units[..|units| - 1], units[|units| - 1];
      assert UnitsMapped(init, meshMap);
      BinaryRunOk(produce, s, f, init, meshMap);
      var g := Generate(produce, s, f, u, meshMap);
      assert forall p :: 0 <= p < |init| ==> init[p] == units[p];
      assert AllPackable(produce, s, f, units, meshMap) <==>
        AllPackable(produce, s, f, init, meshMap) && Glb.Packable(g.json, g.binary);
      BinaryUnit(s, meshMap[u.name], g);
    }
  }

  /**
   * A successful binary export writes one .glb file per unit, in order,
   * named after the unit's object and holding its packed container.
   */
  lemma {:induction false} BinaryRun(produce: (Filter.FilterResult, JsonOptions) -> Generated, s: ExportSettings,
                                     f: Filter.FilterResult, units: seq<ExportUnit>, meshMap: map<string, string>)
    requires UnitsMapped(units, meshMap) && s.format == Binary
    requires RunUnits(produce, s, f, units, meshMap).ok
    ensures var r := RunUnits(produce, s, f, units, meshMap);
      |r.writes| == |units| &&
      forall p :: 0 <= p < |units| ==>
        var g := Generate(produce, s, f, units[p], meshMap);
        Glb.Packable(g.json, g.binary) &&
        r.writes[p] == Write(Substitute(s.filepath, meshMap[units[p].name]), Glb.Pack(g.json, g.binary))
  {
    if units != [] {
      var init, u := units[..|units| - 1], units[|units| - 1];
      assert UnitsMapped(init, meshMap);
      var prev := RunUnits(produce, s, f, init, meshMap);
      assert prev.ok;
      BinaryRun(produce, s, f, init, meshMap);
      var g := Generate(produce, s, f, u, meshMap);
      var out := UnitOutput(s, meshMap[u.name], g);
      assert out.ok;
      assert Glb.Packable(g.json, g.binary);
      assert out.writes == [Write(Substitute(s.filepath, meshMap[u.name]), Glb.Pack(g.json, g.binary))];
      assert RunUnits(produce, s, f, units, meshMap).writes == prev.writes + out.writes;
      assert forall p :: 0 <= p < |init| ==> init[p] == units[p];
    }
  }

  /** When a binary export fails, the last file written holds only the magic and the version. */
  lemma {:induction false} BinaryFailure(produce: (Filter.FilterResult, JsonOptions) -> Generated, s: ExportSettings,
                                         f: Filter.FilterResult, units: seq<ExportUnit>, meshMap: map<string, string>)
    requires UnitsMapped(units, meshMap) && s.format == Binary
    requires !RunUnits(produce, s, f, units, meshMap).ok
    ensures var r := RunUnits(produce, s, f, units, meshMap);
      0 < |r.writes| <= |units| && r.writes[|r.writes| - 1].data == Glb.Magic + U32LE(Glb.Version)
  {
    var init := units[..|units| - 1];
    assert UnitsMapped(init, meshMap);
    if !RunUnits(produce, s, f, init, meshMap).ok {
      BinaryFailure(produce, s, f, init, meshMap);
    } else {
      BinaryRun(produce, s, f, init, meshMap);
      var u := units[|units| - 1];
      BinaryUnit(s, meshMap[u.name], Generate(produce, s, f, u, meshMap));
    }
  }

  /** Once a unit has raised, the later units change nothing. */
  lemma {:induction false} RunUnitsStops(produce: (Filter.FilterResult, JsonOptions) -> Generated, s: ExportSettings,
                                         f: Filter.FilterResult, units: seq<ExportUnit>, meshMap: map<string, string>, k: nat)
    requires UnitsMapped(units, meshMap) && k <= |units|
    requires !RunUnits(produce, s, f, units[..k], meshMap).ok
    ensures RunUnits(produce, s, f, units, meshMap) == RunUnits(produce, s, f, units[..k], meshMap)
    decreases |units|
  {
    if k < |units| {
      var init := units[..|units| - 1];
      assert init[..k] == units[..k];
      RunUnitsStops(produce, s, f, init, meshMap, k);
    } else {
      assert units[..k] == units;
    }
  }

  //
  // The scene and the exporter's entry points
  //

  /** The part of `bpy.context.scene` the exporter changes. */
  class Scene {
    var frame: int  // frame_current
  }

  /**
   * `prepare`: runs the filter pass, remembers the current frame and moves
   * to frame 0 unless the current frame is exported.
   */
  method Prepare(scene: Scene, data: Filter.BlendData, s: ExportSettings) returns (f: Filter.FilterResult, originalFrame: int)
    requires Filter.WellFormed(data.objects)
    modifies scene
    ensures f == Filter.Filtered(data, s.filter)
    ensures originalFrame == old(scene.frame)
    ensures scene.frame == if s.currentFrame then old(scene.frame) else 0
  {
    f := Filter.FilterApply(data, s.filter);
    originalFrame := scene.frame;
    if !s.currentFrame {
      scene.frame := 0;
    }
  }

  /** `finish`: removes the temporary meshes, in order, and restores the frame. */
  method Finish(scene: Scene, f: Filter.FilterResult, originalFrame: int) returns (removed: seq<Filter.MeshData>)
    modifies scene
    ensures removed == f.temporary
    ensures scene.frame == originalFrame
  {
    removed := [];
    for i := 0 to |f.temporary|
      invariant removed == f.temporary[..i]
    {
      removed := removed + [f.temporary[i]];
    }
    scene.frame := originalFrame;
  }

  /** `save`'s export loop over `mesh_list`, which a packing error leaves early. */
  method ExportUnits(produce: (Filter.FilterResult, JsonOptions) -> Generated, s: ExportSettings, f: Filter.FilterResult,
                     units: seq<ExportUnit>, meshMap: map<string, string>) returns (writes: seq<Write>, ok: bool)
    requires UnitsMapped(units, meshMap)
    ensures Outcome(writes, ok) == RunUnits(produce, s, f, units, meshMap)
  {
    var opts := EncodeOptions(s.format, s.strip);
    writes, ok := [], true;
    var i := 0;
    while i < |units| && ok
      invariant 0 <= i <= |units|
      invariant Outcome(writes, ok) == RunUnits(produce, s, f, units[..i], meshMap)
    {
      var u := units[i];
      var gen := produce(f.(meshes := u.meshes, objects := u.objects, nameMapping := meshMap), opts);
      var out := WriteUnit(s, meshMap[u.name], gen);
      assert units[..i + 1][..i] == units[..i];
      writes := writes + out.writes;
      ok := out.ok;
      i := i + 1;
    }
    if ok {
      assert units[..i] == units;
    } else {
      RunUnitsStops(produce, s, f, units, meshMap, i);
    }
  }

  /** The units `save` plans for the filtered data. */
  function SaveUnits(data: Filter.BlendData, f: Filter.FilterResult, separate: bool): seq<ExportUnit>
    requires Mapped(f.meshes, MeshMap(f)) && Filter.InRange(data.objects, f.objects)
  {
    Units(data.objects, f.meshes, f.objects, MeshMap(f), separate)
  }

  /** The key facts `save` relies on: every unit's name has an object name, and the filtered objects exist. */
  lemma SaveReady(data: Filter.BlendData, opts: Filter.FilterOptions, separate: bool)
    requires Filter.WellFormed(data.objects)
    ensures var f := Filter.Filtered(data, opts);
      Mapped(f.meshes, MeshMap(f)) && Filter.InRange(data.objects, f.objects) &&
      UnitsMapped(SaveUnits(data, f, separate), MeshMap(f))
  {
    var f := Filter.Filtered(data, opts);
    Filter.MeshesSpec(data, opts);
    Filter.ObjectsSpec(data, opts);
    assert Mapped(f.meshes, MeshMap(f)) by {
      forall p | 0 <= p < |f.meshes|
        ensures f.meshes[p].0 in MeshMap(f)
      {
        assert f.meshes[p].0 in Filter.KeySet(f.meshes);
      }
    }
    UnitsSpec(data.objects, f.meshes, f.objects, MeshMap(f), separate);
  }

  /**
   * `save`: prepares, writes every unit in turn and finishes.  A unit whose
   * GLB container does not fit 32-bit lengths raises out of `save`: the
   * later units are not written and `finish` does not run, so the frame
   * stays where `prepare` put it and no temporary mesh is removed.
   */
  method Save(scene: Scene, data: Filter.BlendData, s: ExportSettings, produce: (Filter.FilterResult, JsonOptions) -> Generated)
    returns (writes: seq<Write>, removed: seq<Filter.MeshData>, ok: bool)
    requires Filter.WellFormed(data.objects)
    modifies scene
    ensures var f := Filter.Filtered(data, s.filter);
      Mapped(f.meshes, MeshMap(f)) && Filter.InRange(data.objects, f.objects) &&
      UnitsMapped(SaveUnits(data, f, s.separate), MeshMap(f))
    ensures var f := Filter.Filtered(data, s.filter);
      Outcome(writes, ok) == RunUnits(produce, s, f, SaveUnits(data, f, s.separate), MeshMap(f))
    ensures ok ==> scene.frame == old(scene.frame) && removed == Filter.Filtered(data, s.filter).temporary
    ensures !ok ==> scene.frame == (if s.currentFrame then old(scene.frame) else 0) && removed == []
  {
    var f, originalFrame := Prepare(scene, data, s);
    var meshMap := f.nameMapping[DefaultUnit := f.defaultName];
    SaveReady(data, s.filter, s.separate);
    var units := PlanUnits(data.objects, f.meshes, f.objects, meshMap, s.separate);
    writes, ok := ExportUnits(produce, s, f, units, meshMap);
    if ok {
      removed := Finish(scene, f, originalFrame);
    } else {
      removed := [];
    }
  }
}
