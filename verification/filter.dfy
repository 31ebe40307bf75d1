/**
 * The exporter's `filter_apply`: which objects, meshes, curves, cameras and
 * lamps of a Blender file take part in an export, which object name each
 * exported mesh is known by, the default export name, and the numbering of
 * armature bones.
 *
 * Blender data blocks are plain records here.  An object is identified by
 * its position in the file's object list, and its parent by the parent's
 * position.  Host operations (`copy`, `to_mesh`, modifier edits) are
 * abstracted: the name Blender gives to an object's copy is a field of the
 * object, and a mesh produced by `to_mesh` or a local-space copy is a tag
 * naming the object it came from.
 */
module Filter {
  import opened Wrappers

  datatype ObjectType = MeshType | CurveType | FontType | ArmatureType | CameraType | LampType | OtherType

  datatype BlenderObject = BlenderObject(
    name: string,
    users: nat,
    select: bool,
    layer0: bool,            // visible on the first scene layer
    parent: Option<nat>,     // position of the parent object
    otype: ObjectType,
    data: Option<nat>,       // identity of the mesh or curve block the object instances
    copyName: string,        // the name Blender gives a copy of this object
    bones: seq<string>)      // pose bone names, for armatures

  /**
   * Meshes and curves carry their identity: Blender compares data blocks by
   * identity, and two blocks of one kind may share a name (a block linked
   * from a library can have the name of a local block).
   */
  datatype MeshBlock = MeshBlock(id: nat, name: string, users: nat, useAutoSmooth: bool, hasShapeKeys: bool)

  datatype CurveBlock = CurveBlock(id: nat, name: string, users: nat)

  datatype CameraBlock = CameraBlock(name: string, users: nat)

  datatype LampType = PointLamp | SunLamp | SpotLamp | HemiLamp | AreaLamp

  datatype LampBlock = LampBlock(name: string, users: nat, ltype: LampType)

  datatype BlendData = BlendData(
    objects: seq<BlenderObject>,
    activeName: Option<string>,  // name of the scene's active object, if any
    meshes: seq<MeshBlock>,
    curves: seq<CurveBlock>,
    cameras: seq<CameraBlock>,
    lamps: seq<LampBlock>)

  /** The export settings `filter_apply` reads. */
  datatype FilterOptions = FilterOptions(
    selected: bool,      // gltf_selected
    layers: bool,        // gltf_layers
    apply: bool,         // gltf_apply
    local: bool,         // gltf_local
    skins: bool,         // gltf_skins
    defaultName: string) // gltf_default_name on entry

  /**
   * The mesh data an exported mesh key stands for: the stored mesh block
   * itself (by identity, since two blocks may share a name), a mesh
   * evaluated from an object with `to_mesh`, or a copy transformed into an
   * object's local space.
   */
  datatype MeshData = Stored(meshId: nat, meshName: string) | Evaluated(objectName: string) | Localised(base: MeshData, objectName: string)

  /**
   * The identity of a camera, a lamp or an object where `filter_apply`
   * compares one with the filtered objects.  Blocks of different kinds are
   * never equal, whatever their names.
   */
  datatype IdKind = ObjectId | CameraId | LampId

  datatype Id = Id(kind: IdKind, name: string)

  //
  // Objects and their parents
  //

  predicate ParentsInRange(objs: seq<BlenderObject>)
  {
    forall i :: 0 <= i < |objs| && objs[i].parent.Some? ==> objs[i].parent.value < |objs|
  }

  /** Following parents from object `i` reaches a root within `fuel` steps. */
  predicate ReachesRoot(objs: seq<BlenderObject>, i: nat, fuel: nat)
    requires ParentsInRange(objs) && i < |objs|
    decreases fuel
  {
    match objs[i].parent
    case None => true
    case Some(p) => fuel > 0 && ReachesRoot(objs, p, fuel - 1)
  }

  /** Parent links stay inside the file and never form a cycle, as in Blender. */
  predicate WellFormed(objs: seq<BlenderObject>)
  {
    ParentsInRange(objs) && forall i :: 0 <= i < |objs| ==> ReachesRoot(objs, i, |objs|)
  }

  /** The parents of `i`, nearest first, followed for at most `fuel` steps. */
  function Chain(objs: seq<BlenderObject>, i: nat, fuel: nat): (r: seq<nat>)
    requires ParentsInRange(objs) && i < |objs|
    ensures forall k :: 0 <= k < |r| ==> r[k] < |objs|
    decreases fuel
  {
    match objs[i].parent
    case None => []
    case Some(p) => if fuel == 0 then [] else [p] + Chain(objs, p, fuel - 1)
  }

  /** All ancestors of object `i`, nearest first. */
  function Ancestors(objs: seq<BlenderObject>, i: nat): seq<nat>
    requires ParentsInRange(objs) && i < |objs|
  {
    Chain(objs, i, |objs|)
  }

  predicate InRange(objs: seq<BlenderObject>, xs: seq<nat>)
  {
    forall p :: 0 <= p < |xs| ==> xs[p] < |objs|
  }

  predicate NoDuplicates<T(==)>(xs: seq<T>)
  {
    forall i, j :: 0 <= i < j < |xs| ==> xs[i] != xs[j]
  }

  predicate Increasing(xs: seq<nat>)
  {
    forall i, j :: 0 <= i < j < |xs| ==> xs[i] < xs[j]
  }

  //
  // Direct selection (the first loop over bpy.data.objects)
  //

  /** An object is selected directly when it has users, is selected if only selected objects are exported, and lies on the first layer unless all layers are. */
  predicate Selectable(o: BlenderObject, opts: FilterOptions)
  {
    o.users != 0 && (!opts.selected || o.select) && (opts.layers || o.layer0)
  }

  /** Whether parents of selected objects are collected as implicit objects. */
  predicate WalksParents(opts: FilterOptions)
  {
    opts.selected || !opts.layers
  }

  /** The directly selected objects among the first `n`, in file order. */
  function Direct(objs: seq<BlenderObject>, opts: FilterOptions, n: nat): seq<nat>
    requires n <= |objs|
  {
    if n == 0 then []
    else Direct(objs, opts, n - 1) + (if Selectable(objs[n - 1], opts) then [n - 1] else [])
  }

  /** Direct selection keeps, in file order, exactly the selectable objects. */
  lemma {:induction false} DirectSpec(objs: seq<BlenderObject>, opts: FilterOptions, n: nat)
    requires n <= |objs|
    ensures var d := Direct(objs, opts, n);
      Increasing(d) && NoDuplicates(d) && InRange(objs, d) &&
      forall k :: k in d <==> 0 <= k < n && Selectable(objs[k], opts)
  {
    if n > 0 {
      DirectSpec(objs, opts, n - 1);
      var d0 := Direct(objs, opts, n - 1);
      forall p | 0 <= p < |d0| ensures d0[p] < n - 1 {
        assert d0[p] in d0;
      }
    }
  }

  //
  // Implicit (ancestor) objects
  //

  /** `acc` followed by the elements of `xs` it does not hold yet, each once, in order. */
  function AppendNew(acc: seq<nat>, xs: seq<nat>): seq<nat>
  {
    if xs == [] then acc
    else
      var a := AppendNew(acc, xs[..|xs| - 1]);
      if xs[|xs| - 1] in a then a else a + [xs[|xs| - 1]]
  }

  lemma {:induction false} AppendNewSpec(acc: seq<nat>, xs: seq<nat>)
    ensures var r := AppendNew(acc, xs);
      |acc| <= |r| && r[..|acc|] == acc &&
      (forall x :: x in r <==> x in acc || x in xs) &&
      (NoDuplicates(acc) ==> NoDuplicates(r))
  {
    if xs != [] {
      AppendNewSpec(acc, xs[..|xs| - 1]);
      assert forall x :: x in xs <==> x in xs[..|xs| - 1] || x == xs[|xs| - 1] by {
        assert xs == xs[..|xs| - 1] + [xs[|xs| - 1]];
      }
    }
  }

  lemma {:induction false} AppendNewStep(acc: seq<nat>, xs: seq<nat>, x: nat)
    ensures AppendNew(acc, xs + [x]) == (var a := AppendNew(acc, xs); if x in a then a else a + [x])
  {
    assert (xs + [x])[..|xs|] == xs;
  }

  /** The ancestors of the objects in `direct`, in discovery order, each once. */
  function Implicit(objs: seq<BlenderObject>, direct: seq<nat>): seq<nat>
    requires ParentsInRange(objs) && InRange(objs, direct)
  {
    if direct == [] then []
    else AppendNew(Implicit(objs, direct[..|direct| - 1]), Ancestors(objs, direct[|direct| - 1]))
  }

  /** `a` is an ancestor of one of the objects in `xs`. */
  predicate AncestorOfSome(objs: seq<BlenderObject>, xs: seq<nat>, a: nat)
    requires ParentsInRange(objs) && InRange(objs, xs)
  {
    exists p :: 0 <= p < |xs| && a in Ancestors(objs, xs[p])
  }

  lemma {:induction false} ImplicitSpec(objs: seq<BlenderObject>, direct: seq<nat>)
    requires ParentsInRange(objs) && InRange(objs, direct)
    ensures var r := Implicit(objs, direct);
      NoDuplicates(r) && InRange(objs, r) &&
      forall a :: a in r <==> AncestorOfSome(objs, direct, a)
  {
    if direct != [] {
      var init := direct[..|direct| - 1];
      var last := direct[|direct| - 1];
      ImplicitSpec(objs, init);
      var r0 := Implicit(objs, init);
      var r := Implicit(objs, direct);
      AppendNewSpec(r0, Ancestors(objs, last));
      forall a | a in r
        ensures AncestorOfSome(objs, direct, a)
      {
        if a in r0 {
          var p :| 0 <= p < |init| && a in Ancestors(objs, init[p]);
          assert direct[p] == init[p];
        } else {
          assert a in Ancestors(objs, direct[|direct| - 1]);
        }
      }
      forall a | AncestorOfSome(objs, direct, a)
        ensures a in r
      {
        var p :| 0 <= p < |direct| && a in Ancestors(objs, direct[p]);
        if p < |direct| - 1 {
          assert init[p] == direct[p];
          assert AncestorOfSome(objs, init, a);
        }
      }
      forall q | 0 <= q < |r| ensures r[q] < |objs| {
        assert r[q] in r;
        if r[q] in r0 {
          var q0 :| 0 <= q0 < |r0| && r0[q0] == r[q];
        }
      }
    }
  }

  /** Positions that are in range stay in range when new ones are appended. */
  lemma InRangeAppendNew(objs: seq<BlenderObject>, acc: seq<nat>, xs: seq<nat>)
    requires InRange(objs, acc) && InRange(objs, xs)
    ensures InRange(objs, AppendNew(acc, xs))
  {
    AppendNewSpec(acc, xs);
    var r := AppendNew(acc, xs);
    forall q | 0 <= q < |r| ensures r[q] < |objs| {
      assert r[q] in acc || r[q] in xs;
      if r[q] in acc {
        var i :| 0 <= i < |acc| && acc[i] == r[q];
      } else {
        var i :| 0 <= i < |xs| && xs[i] == r[q];
      }
    }
  }

  //
  // Default name
  //

  /** The position of the first selected object, if any. */
  function FirstSelected(objs: seq<BlenderObject>): (r: Option<nat>)
    ensures r.Some? ==> r.value < |objs| && objs[r.value].select &&
                        forall j :: 0 <= j < r.value ==> !objs[j].select
    ensures r.None? ==> forall j :: 0 <= j < |objs| ==> !objs[j].select
  {
    if objs == [] then None
    else if objs[0].select then Some(0)
    else match FirstSelected(objs[1..])
         case None => None
         case Some(k) => Some(k + 1)
  }

  /** The default name before meshes are looked at: the active object's, the preset one, or the first selected object's. */
  function InitialName(data: BlendData, opts: FilterOptions): string
  {
    var lead := if data.activeName.Some? then data.activeName.value else opts.defaultName;
    if lead != "" then lead
    else match FirstSelected(data.objects)
         case None => lead
         case Some(k) => data.objects[k].name
  }

  //
  // Meshes and curves
  //

  const MeshKinds: set<ObjectType> := {MeshType}
  const CurveKinds: set<ObjectType> := {CurveType, FontType}

  /** Object `o` is of one of `kinds` and instances the data block `block`. */
  predicate Uses(o: BlenderObject, kinds: set<ObjectType>, block: nat)
  {
    o.otype in kinds && o.data == Some(block)
  }

  predicate HasUser(objs: seq<BlenderObject>, direct: seq<nat>, kinds: set<ObjectType>, block: nat)
    requires InRange(objs, direct)
  {
    exists p :: 0 <= p < |direct| && Uses(objs[direct[p]], kinds, block)
  }

  /** The position in `direct` of the first object of one of `kinds` that instances `block`. */
  function FirstUser(objs: seq<BlenderObject>, direct: seq<nat>, kinds: set<ObjectType>, block: nat): (r: Option<nat>)
    requires InRange(objs, direct)
    ensures r.Some? ==> r.value < |direct| && Uses(objs[direct[r.value]], kinds, block) &&
                        forall q :: 0 <= q < r.value ==> !Uses(objs[direct[q]], kinds, block)
    ensures r.None? <==> !HasUser(objs, direct, kinds, block)
  {
    if direct == [] then None
    else if Uses(objs[direct[0]], kinds, block) then Some(0)
    else match FirstUser(objs, direct[1..], kinds, block)
         case None => None
         case Some(q) => Some(q + 1)
  }

  /** An insertion-ordered dictionary, as Python's `dict`. */
  type OrderedMap<V> = seq<(string, V)>

  function KeySet<V>(d: OrderedMap<V>): set<string>
  {
    set i | 0 <= i < |d| :: d[i].0
  }

  /** Each key occurs once, as in a dictionary. */
  predicate UniqueKeys<V>(d: OrderedMap<V>)
  {
    forall i, j :: 0 <= i < j < |d| ==> d[i].0 != d[j].0
  }

  /** `d[k] = v`: a present key keeps its place, a new key goes last. */
  function Put<V(==)>(d: OrderedMap<V>, k: string, v: V): (r: OrderedMap<V>)
    ensures KeySet(r) == KeySet(d) + {k}
    ensures UniqueKeys(d) ==> UniqueKeys(r)
    ensures forall i :: 0 <= i < |r| ==> r[i] == (k, v) || r[i] in d
    ensures forall i :: 0 <= i < |r| && r[i].0 == k ==> r[i].1 == v
    ensures k in KeySet(d) ==> |r| == |d| && forall i :: 0 <= i < |r| ==> r[i].0 == d[i].0
    ensures k !in KeySet(d) ==> r == d + [(k, v)]
  {
    if k in KeySet(d) then
      var r := seq(|d|, i requires 0 <= i < |d| => if d[i].0 == k then (k, v) else d[i]);
      assert forall i :: 0 <= i < |r| ==> r[i].0 == d[i].0;
      assert KeySet(r) == KeySet(d) by {
        forall x | x in KeySet(d) ensures x in KeySet(r) {
          var i :| 0 <= i < |d| && d[i].0 == x;
          assert r[i].0 == x;
        }
      }
      r
    else
      var r := d + [(k, v)];
      assert forall i :: 0 <= i < |d| ==> d[i].0 in KeySet(d);
      assert KeySet(r) == KeySet(d) + {k} by {
        assert r[|d|].0 == k;
        forall x | x in KeySet(d) ensures x in KeySet(r) {
          var i :| 0 <= i < |d| && d[i].0 == x;
          assert r[i].0 == x;
        }
      }
      r
  }

  /** What the mesh and curve loops accumulate. */
  datatype Gathered = Gathered(
    defaultName: string,
    meshes: OrderedMap<MeshData>,      // filtered_meshes
    vertexGroups: map<string, string>, // filtered_vertex_groups: whose vertex groups
    temporary: seq<MeshData>,          // temporary_meshes
    nameMapping: map<string, string>)  // name_mapping

  /** Records the exported data for block `key`, used through the object named `objName`. */
  function Record(g: Gathered, key: string, objName: string, mesh: MeshData, temporary: seq<MeshData>): Gathered
  {
    Gathered(if g.defaultName == "" then objName else g.defaultName,
             Put(g.meshes, key, mesh),
             g.vertexGroups[key := objName],
             temporary,
             g.nameMapping[key := objName])
  }

  /** A mesh is exported when it has users and a directly selected MESH object instances it. */
  predicate MeshIncluded(objs: seq<BlenderObject>, direct: seq<nat>, m: MeshBlock)
    requires InRange(objs, direct)
  {
    m.users != 0 && HasUser(objs, direct, MeshKinds, m.id)
  }

  /** A curve is exported when it has users and a directly selected CURVE or FONT object instances it. */
  predicate CurveIncluded(objs: seq<BlenderObject>, direct: seq<nat>, c: CurveBlock)
    requires InRange(objs, direct)
  {
    c.users != 0 && HasUser(objs, direct, CurveKinds, c.id)
  }

  /** Object `n` names a directly selected object or the copy of one. */
  predicate UserName(objs: seq<BlenderObject>, direct: seq<nat>, n: string)
    requires InRange(objs, direct)
  {
    exists p :: 0 <= p < |direct| && (n == objs[direct[p]].name || n == objs[direct[p]].copyName)
  }

  /** Auto smooth takes effect only on a mesh without shape keys. */
  predicate Smoothed(m: MeshBlock)
  {
    m.useAutoSmooth && !m.hasShapeKeys
  }

  /**
   * The object an included mesh is exported through: its first directly
   * selected user, or a copy of that user when auto smooth takes effect.
   */
  function MeshUserName(objs: seq<BlenderObject>, direct: seq<nat>, m: MeshBlock): (r: string)
    requires InRange(objs, direct) && MeshIncluded(objs, direct, m)
    ensures UserName(objs, direct, r)
  {
    var p := FirstUser(objs, direct, MeshKinds, m.id).value;
    var o := objs[direct[p]];
    if Smoothed(m) then o.copyName else o.name
  }

  /** An included curve is always exported through a copy of its first directly selected user. */
  function CurveUserName(objs: seq<BlenderObject>, direct: seq<nat>, c: CurveBlock): (r: string)
    requires InRange(objs, direct) && CurveIncluded(objs, direct, c)
    ensures UserName(objs, direct, r)
  {
    objs[direct[FirstUser(objs, direct, CurveKinds, c.id).value]].copyName
  }

  /**
   * The mesh exported for an included mesh: evaluated through its object
   * when modifiers are applied or auto smooth takes effect, the stored
   * mesh otherwise, and a local-space copy of that under `gltf_local`.
   */
  function MeshValue(objs: seq<BlenderObject>, direct: seq<nat>, opts: FilterOptions, m: MeshBlock): (r: MeshData)
    requires InRange(objs, direct) && MeshIncluded(objs, direct, m)
    ensures var base := if r.Localised? then r.base else r;
      (r.Localised? <==> opts.local) &&
      (r.Localised? ==> r.objectName == MeshUserName(objs, direct, m)) &&
      (base.Evaluated? <==> opts.apply || Smoothed(m)) &&
      (base.Evaluated? ==> base.objectName == MeshUserName(objs, direct, m)) &&
      (base.Stored? <==> !base.Evaluated?) &&
      (base.Stored? ==> base.meshId == m.id && base.meshName == m.name)
  {
    var objName := MeshUserName(objs, direct, m);
    var base := if opts.apply || Smoothed(m) then Evaluated(objName) else Stored(m.id, m.name);
    if opts.local then Localised(base, objName) else base
  }

  /** Two blocks of one name exported as stored meshes remain two different values. */
  lemma StoredBlocksDistinct(objs: seq<BlenderObject>, direct: seq<nat>, opts: FilterOptions, m1: MeshBlock, m2: MeshBlock)
    requires InRange(objs, direct) && MeshIncluded(objs, direct, m1) && MeshIncluded(objs, direct, m2)
    requires !opts.apply && !Smoothed(m1) && m1.id != m2.id
    ensures MeshValue(objs, direct, opts, m1) != MeshValue(objs, direct, opts, m2)
  {
  }

  /** The mesh exported for an included curve: always evaluated, and localised under `gltf_local`. */
  function CurveValue(objs: seq<BlenderObject>, direct: seq<nat>, opts: FilterOptions, c: CurveBlock): (r: MeshData)
    requires InRange(objs, direct) && CurveIncluded(objs, direct, c)
    ensures var base := if r.Localised? then r.base else r;
      (r.Localised? <==> opts.local) &&
      (r.Localised? ==> r.objectName == CurveUserName(objs, direct, c)) &&
      base == Evaluated(CurveUserName(objs, direct, c))
  {
    var objName := CurveUserName(objs, direct, c);
    if opts.local then Localised(Evaluated(objName), objName) else Evaluated(objName)
  }

  /** The meshes created on the way to `d`, in creation order: each is appended to `temporary_meshes`. */
  function Derived(d: MeshData): (r: seq<MeshData>)
    ensures forall k :: 0 <= k < |r| ==> !r[k].Stored?
    ensures !d.Stored? ==> |r| > 0 && r[|r| - 1] == d
  {
    match d
    case Stored(_, _) => []
    case Evaluated(_) => [d]
    case Localised(b, _) => Derived(b) + [d]
  }

  /** One turn of the loop over `bpy.data.meshes`. */
  function AddMesh(objs: seq<BlenderObject>, direct: seq<nat>, opts: FilterOptions, g: Gathered, m: MeshBlock): Gathered
    requires InRange(objs, direct)
  {
    if !MeshIncluded(objs, direct, m) then g
    else
      var mesh := MeshValue(objs, direct, opts, m);
      Record(g, m.name, MeshUserName(objs, direct, m), mesh, g.temporary + Derived(mesh))
  }

  /** One turn of the loop over `bpy.data.curves`. */
  function AddCurve(objs: seq<BlenderObject>, direct: seq<nat>, opts: FilterOptions, g: Gathered, c: CurveBlock): Gathered
    requires InRange(objs, direct)
  {
    if !CurveIncluded(objs, direct, c) then g
    else
      var mesh := CurveValue(objs, direct, opts, c);
      Record(g, c.name, CurveUserName(objs, direct, c), mesh, g.temporary + Derived(mesh))
  }

  function FoldMeshes(objs: seq<BlenderObject>, direct: seq<nat>, opts: FilterOptions, g: Gathered, ms: seq<MeshBlock>): Gathered
    requires InRange(objs, direct)
  {
    if ms == [] then g
    else AddMesh(objs, direct, opts, FoldMeshes(objs, direct, opts, g, ms[..|ms| - 1]), ms[|ms| - 1])
  }

  function FoldCurves(objs: seq<BlenderObject>, direct: seq<nat>, opts: FilterOptions, g: Gathered, cs: seq<CurveBlock>): Gathered
    requires InRange(objs, direct)
  {
    if cs == [] then g
    else AddCurve(objs, direct, opts, FoldCurves(objs, direct, opts, g, cs[..|cs| - 1]), cs[|cs| - 1])
  }

  /**
   * The three dictionaries share one key set, each key occurs once in
   * `filtered_meshes`, and every derived mesh is listed for removal.
   */
  predicate Consistent(g: Gathered)
  {
    KeySet(g.meshes) == g.vertexGroups.Keys == g.nameMapping.Keys && UniqueKeys(g.meshes) &&
    forall i :: 0 <= i < |g.meshes| ==> g.meshes[i].1.Stored? || g.meshes[i].1 in g.temporary
  }

  lemma RecordKeeps(g: Gathered, key: string, objName: string, mesh: MeshData, temporary: seq<MeshData>)
    requires Consistent(g) && g.temporary <= temporary && (mesh.Stored? || mesh in temporary)
    ensures var r := Record(g, key, objName, mesh, temporary);
      Consistent(r) && KeySet(r.meshes) == KeySet(g.meshes) + {key} &&
      (g.defaultName != "" ==> r.defaultName == g.defaultName) &&
      (g.defaultName == "" ==> r.defaultName == objName)
  {
    var r := Record(g, key, objName, mesh, temporary);
    forall i | 0 <= i < |r.meshes|
      ensures r.meshes[i].1.Stored? || r.meshes[i].1 in r.temporary
    {
      if r.meshes[i] != (key, mesh) {
        var j :| 0 <= j < |g.meshes| && g.meshes[j] == r.meshes[i];
      }
    }
  }

  /** One turn of the mesh loop: consistency is kept and the key is added exactly when the mesh is included. */
  lemma AddMeshSpec(objs: seq<BlenderObject>, direct: seq<nat>, opts: FilterOptions, g: Gathered, m: MeshBlock)
    requires InRange(objs, direct) && Consistent(g)
    ensures var r := AddMesh(objs, direct, opts, g, m);
      Consistent(r) &&
      KeySet(r.meshes) == KeySet(g.meshes) + (if MeshIncluded(objs, direct, m) then {m.name} else {})
  {
    if MeshIncluded(objs, direct, m) {
      var mesh := MeshValue(objs, direct, opts, m);
      RecordKeeps(g, m.name, MeshUserName(objs, direct, m), mesh, g.temporary + Derived(mesh));
    }
  }

  /**
   * One mesh turn keeps a default name that is set; an empty one becomes
   * the name of the object the mesh is exported through, if it is included.
   */
  lemma AddMeshDefault(objs: seq<BlenderObject>, direct: seq<nat>, opts: FilterOptions, g: Gathered, m: MeshBlock)
    requires InRange(objs, direct)
    ensures var r := AddMesh(objs, direct, opts, g, m);
      (g.defaultName != "" ==> r.defaultName == g.defaultName) &&
      (g.defaultName == "" ==> r.defaultName == if MeshIncluded(objs, direct, m) then MeshUserName(objs, direct, m) else "")
  {
  }

  /** One turn of the curve loop, likewise. */
  lemma AddCurveSpec(objs: seq<BlenderObject>, direct: seq<nat>, opts: FilterOptions, g: Gathered, c: CurveBlock)
    requires InRange(objs, direct) && Consistent(g)
    ensures var r := AddCurve(objs, direct, opts, g, c);
      Consistent(r) &&
      KeySet(r.meshes) == KeySet(g.meshes) + (if CurveIncluded(objs, direct, c) then {c.name} else {})
  {
    if CurveIncluded(objs, direct, c) {
      var mesh := CurveValue(objs, direct, opts, c);
      RecordKeeps(g, c.name, CurveUserName(objs, direct, c), mesh, g.temporary + Derived(mesh));
    }
  }

  /** One curve turn keeps a default name that is set; an empty one becomes the copy's name, if the curve is included. */
  lemma AddCurveDefault(objs: seq<BlenderObject>, direct: seq<nat>, opts: FilterOptions, g: Gathered, c: CurveBlock)
    requires InRange(objs, direct)
    ensures var r := AddCurve(objs, direct, opts, g, c);
      (g.defaultName != "" ==> r.defaultName == g.defaultName) &&
      (g.defaultName == "" ==> r.defaultName == if CurveIncluded(objs, direct, c) then CurveUserName(objs, direct, c) else "")
  {
  }

  /**
   * Key `k` is in all three dictionaries, `filtered_vertex_groups` and
   * `name_mapping` give it the object `objName`, and `filtered_meshes`
   * holds `mesh` under it.
   */
  predicate Recorded(g: Gathered, k: string, objName: string, mesh: MeshData)
  {
    k in KeySet(g.meshes) && k in g.vertexGroups && k in g.nameMapping &&
    g.vertexGroups[k] == objName && g.nameMapping[k] == objName &&
    forall q :: 0 <= q < |g.meshes| && g.meshes[q].0 == k ==> g.meshes[q].1 == mesh
  }

  /** Recording a key leaves what the other keys hold unchanged. */
  lemma RecordOthers(g: Gathered, key: string, objName: string, mesh: MeshData, temporary: seq<MeshData>,
                     k: string, n: string, v: MeshData)
    requires k != key && Recorded(g, k, n, v)
    ensures Recorded(Record(g, key, objName, mesh, temporary), k, n, v)
  {
    var r := Record(g, key, objName, mesh, temporary);
    forall q | 0 <= q < |r.meshes| && r.meshes[q].0 == k
      ensures r.meshes[q].1 == v
    {
      var j :| 0 <= j < |g.meshes| && g.meshes[j] == r.meshes[q];
    }
  }

  /**
   * One mesh turn: an included mesh is recorded under its name with its
   * object and its exported mesh, the other keys keep what they hold, and
   * a mesh that is not included changes nothing.
   */
  lemma AddMeshEntry(objs: seq<BlenderObject>, direct: seq<nat>, opts: FilterOptions, g: Gathered, m: MeshBlock)
    requires InRange(objs, direct)
    ensures var r := AddMesh(objs, direct, opts, g, m);
      (MeshIncluded(objs, direct, m) ==>
         Recorded(r, m.name, MeshUserName(objs, direct, m), MeshValue(objs, direct, opts, m))) &&
      (!MeshIncluded(objs, direct, m) ==> r == g) &&
      forall k, n, v :: k != m.name && Recorded(g, k, n, v) ==> Recorded(r, k, n, v)
  {
    if MeshIncluded(objs, direct, m) {
      var mesh := MeshValue(objs, direct, opts, m);
      var objName := MeshUserName(objs, direct, m);
      forall k, n, v | k != m.name && Recorded(g, k, n, v)
        ensures Recorded(AddMesh(objs, direct, opts, g, m), k, n, v)
      {
        RecordOthers(g, m.name, objName, mesh, g.temporary + Derived(mesh), k, n, v);
      }
    }
  }

  /** One curve turn, likewise. */
  lemma AddCurveEntry(objs: seq<BlenderObject>, direct: seq<nat>, opts: FilterOptions, g: Gathered, c: CurveBlock)
    requires InRange(objs, direct)
    ensures var r := AddCurve(objs, direct, opts, g, c);
      (CurveIncluded(objs, direct, c) ==>
         Recorded(r, c.name, CurveUserName(objs, direct, c), CurveValue(objs, direct, opts, c))) &&
      (!CurveIncluded(objs, direct, c) ==> r == g) &&
      forall k, n, v :: k != c.name && Recorded(g, k, n, v) ==> Recorded(r, k, n, v)
  {
    if CurveIncluded(objs, direct, c) {
      var mesh := CurveValue(objs, direct, opts, c);
      var objName := CurveUserName(objs, direct, c);
      forall k, n, v | k != c.name && Recorded(g, k, n, v)
        ensures Recorded(AddCurve(objs, direct, opts, g, c), k, n, v)
      {
        RecordOthers(g, c.name, objName, mesh, g.temporary + Derived(mesh), k, n, v);
      }
    }
  }

  /** The names of the included meshes among `ms`. */
  function IncludedMeshNames(objs: seq<BlenderObject>, direct: seq<nat>, ms: seq<MeshBlock>): set<string>
    requires InRange(objs, direct)
  {
    if ms == [] then {}
    else IncludedMeshNames(objs, direct, ms[..|ms| - 1]) +
         (if MeshIncluded(objs, direct, ms[|ms| - 1]) then {ms[|ms| - 1].name} else {})
  }

  /** The names of the included curves among `cs`. */
  function IncludedCurveNames(objs: seq<BlenderObject>, direct: seq<nat>, cs: seq<CurveBlock>): set<string>
    requires InRange(objs, direct)
  {
    if cs == [] then {}
    else IncludedCurveNames(objs, direct, cs[..|cs| - 1]) +
         (if CurveIncluded(objs, direct, cs[|cs| - 1]) then {cs[|cs| - 1].name} else {})
  }

  lemma {:induction false} IncludedMeshNamesSpec(objs: seq<BlenderObject>, direct: seq<nat>, ms: seq<MeshBlock>)
    requires InRange(objs, direct)
    ensures forall x :: x in IncludedMeshNames(objs, direct, ms) <==>
                        exists i :: 0 <= i < |ms| && MeshIncluded(objs, direct, ms[i]) && ms[i].name == x
  {
    if ms != [] {
      var init := ms[..|ms| - 1];
      IncludedMeshNamesSpec(objs, direct, init);
      forall x ensures x in IncludedMeshNames(objs, direct, ms) <==>
                       exists i :: 0 <= i < |ms| && MeshIncluded(objs, direct, ms[i]) && ms[i].name == x
      {
        if exists i :: 0 <= i < |ms| && MeshIncluded(objs, direct, ms[i]) && ms[i].name == x {
          var i :| 0 <= i < |ms| && MeshIncluded(objs, direct, ms[i]) && ms[i].name == x;
          if i < |ms| - 1 {
            assert init[i] == ms[i];
          }
        }
        if x in IncludedMeshNames(objs, direct, init) {
          var i :| 0 <= i < |init| && MeshIncluded(objs, direct, init[i]) && init[i].name == x;
          assert ms[i] == init[i];
        }
      }
    }
  }

  lemma {:induction false} IncludedCurveNamesSpec(objs: seq<BlenderObject>, direct: seq<nat>, cs: seq<CurveBlock>)
    requires InRange(objs, direct)
    ensures forall x :: x in IncludedCurveNames(objs, direct, cs) <==>
                        exists i :: 0 <= i < |cs| && CurveIncluded(objs, direct, cs[i]) && cs[i].name == x
  {
    if cs != [] {
      var init := cs[..|cs| - 1];
      IncludedCurveNamesSpec(objs, direct, init);
      forall x ensures x in IncludedCurveNames(objs, direct, cs) <==>
                       exists i :: 0 <= i < |cs| && CurveIncluded(objs, direct, cs[i]) && cs[i].name == x
      {
        if exists i :: 0 <= i < |cs| && CurveIncluded(objs, direct, cs[i]) && cs[i].name == x {
          var i :| 0 <= i < |cs| && CurveIncluded(objs, direct, cs[i]) && cs[i].name == x;
          if i < |cs| - 1 {
            assert init[i] == cs[i];
          }
        }
        if x in IncludedCurveNames(objs, direct, init) {
          var i :| 0 <= i < |init| && CurveIncluded(objs, direct, init[i]) && init[i].name == x;
          assert cs[i] == init[i];
        }
      }
    }
  }

  /**
   * The mesh loop keeps the dictionaries consistent, adds exactly the meshes
   * that have users and a directly selected MESH object instancing them,
   * and never replaces a default name that is already set.
   */
  lemma {:induction false} FoldMeshesSpec(objs: seq<BlenderObject>, direct: seq<nat>, opts: FilterOptions, g: Gathered, ms: seq<MeshBlock>)
    requires InRange(objs, direct) && Consistent(g)
    ensures var r := FoldMeshes(objs, direct, opts, g, ms);
      Consistent(r) &&
      KeySet(r.meshes) == KeySet(g.meshes) + IncludedMeshNames(objs, direct, ms)
  {
    if ms != [] {
      var init, m := ms[..|ms| - 1], ms[|ms| - 1];
      var h := FoldMeshes(objs, direct, opts, g, init);
      FoldMeshesSpec(objs, direct, opts, g, init);
      AddMeshSpec(objs, direct, opts, h, m);
      assert FoldMeshes(objs, direct, opts, g, ms) == AddMesh(objs, direct, opts, h, m);
      assert IncludedMeshNames(objs, direct, ms) == IncludedMeshNames(objs, direct, init) + (if MeshIncluded(objs, direct, m) then {m.name} else {});
    }
  }

  /** The curve loop, likewise, for CURVE and FONT objects. */
  lemma {:induction false} FoldCurvesSpec(objs: seq<BlenderObject>, direct: seq<nat>, opts: FilterOptions, g: Gathered, cs: seq<CurveBlock>)
    requires InRange(objs, direct) && Consistent(g)
    ensures var r := FoldCurves(objs, direct, opts, g, cs);
      Consistent(r) &&
      KeySet(r.meshes) == KeySet(g.meshes) + IncludedCurveNames(objs, direct, cs)
  {
    if cs != [] {
      var init, c := cs[..|cs| - 1], cs[|cs| - 1];
      var h := FoldCurves(objs, direct, opts, g, init);
      FoldCurvesSpec(objs, direct, opts, g, init);
      AddCurveSpec(objs, direct, opts, h, c);
      assert FoldCurves(objs, direct, opts, g, cs) == AddCurve(objs, direct, opts, h, c);
      assert IncludedCurveNames(objs, direct, cs) == IncludedCurveNames(objs, direct, init) + (if CurveIncluded(objs, direct, c) then {c.name} else {});
    }
  }

  //
  // What the loops record, and the default name they choose
  //

  /** No included mesh after position `i` has the name of `ms[i]`: its turn writes the key last. */
  predicate LastMesh(objs: seq<BlenderObject>, direct: seq<nat>, ms: seq<MeshBlock>, i: nat)
    requires InRange(objs, direct) && i < |ms|
  {
    forall j :: i < j < |ms| ==> !(MeshIncluded(objs, direct, ms[j]) && ms[j].name == ms[i].name)
  }

  /** No included curve after position `i` has the name of `cs[i]`. */
  predicate LastCurve(objs: seq<BlenderObject>, direct: seq<nat>, cs: seq<CurveBlock>, i: nat)
    requires InRange(objs, direct) && i < |cs|
  {
    forall j :: i < j < |cs| ==> !(CurveIncluded(objs, direct, cs[j]) && cs[j].name == cs[i].name)
  }

  /**
   * After the mesh loop, every included mesh that is the last included one
   * of its name is recorded with its object and its exported mesh; keys no
   * included mesh has keep what they held.
   */
  lemma {:induction false} FoldMeshesEntries(objs: seq<BlenderObject>, direct: seq<nat>, opts: FilterOptions, g: Gathered, ms: seq<MeshBlock>)
    requires InRange(objs, direct)
    ensures var r := FoldMeshes(objs, direct, opts, g, ms);
      (forall i :: 0 <= i < |ms| && MeshIncluded(objs, direct, ms[i]) && LastMesh(objs, direct, ms, i) ==>
         Recorded(r, ms[i].name, MeshUserName(objs, direct, ms[i]), MeshValue(objs, direct, opts, ms[i]))) &&
      (forall k, n, v :: k !in IncludedMeshNames(objs, direct, ms) && Recorded(g, k, n, v) ==> Recorded(r, k, n, v))
  {
    if ms != [] {
      var init, m := ms[..|ms| - 1], ms[|ms| - 1];
      var h := FoldMeshes(objs, direct, opts, g, init);
      FoldMeshesEntries(objs, direct, opts, g, init);
      AddMeshEntry(objs, direct, opts, h, m);
      var r := FoldMeshes(objs, direct, opts, g, ms);
      assert r == AddMesh(objs, direct, opts, h, m);
      forall i | 0 <= i < |ms| && MeshIncluded(objs, direct, ms[i]) && LastMesh(objs, direct, ms, i)
        ensures Recorded(r, ms[i].name, MeshUserName(objs, direct, ms[i]), MeshValue(objs, direct, opts, ms[i]))
      {
        if i < |init| {
          assert ms[i] == init[i];
          forall j | i < j < |init|
            ensures !(MeshIncluded(objs, direct, init[j]) && init[j].name == init[i].name)
          {
            assert init[j] == ms[j];
          }
          assert LastMesh(objs, direct, init, i);
          assert !(MeshIncluded(objs, direct, m) && m.name == ms[i].name);
        }
      }
      assert IncludedMeshNames(objs, direct, ms) == IncludedMeshNames(objs, direct, init) + (if MeshIncluded(objs, direct, m) then {m.name} else {});
    }
  }

  /** The curve loop, likewise: the last included curve of each name is what its key holds. */
  lemma {:induction false} FoldCurvesEntries(objs: seq<BlenderObject>, direct: seq<nat>, opts: FilterOptions, g: Gathered, cs: seq<CurveBlock>)
    requires InRange(objs, direct)
    ensures var r := FoldCurves(objs, direct, opts, g, cs);
      (forall i :: 0 <= i < |cs| && CurveIncluded(objs, direct, cs[i]) && LastCurve(objs, direct, cs, i) ==>
         Recorded(r, cs[i].name, CurveUserName(objs, direct, cs[i]), CurveValue(objs, direct, opts, cs[i]))) &&
      (forall k, n, v :: k !in IncludedCurveNames(objs, direct, cs) && Recorded(g, k, n, v) ==> Recorded(r, k, n, v))
  {
    if cs != [] {
      var init, c := cs[..|cs| - 1], cs[|cs| - 1];
      var h := FoldCurves(objs, direct, opts, g, init);
      FoldCurvesEntries(objs, direct, opts, g, init);
      AddCurveEntry(objs, direct, opts, h, c);
      var r := FoldCurves(objs, direct, opts, g, cs);
      assert r == AddCurve(objs, direct, opts, h, c);
      forall i | 0 <= i < |cs| && CurveIncluded(objs, direct, cs[i]) && LastCurve(objs, direct, cs, i)
        ensures Recorded(r, cs[i].name, CurveUserName(objs, direct, cs[i]), CurveValue(objs, direct, opts, cs[i]))
      {
        if i < |init| {
          assert cs[i] == init[i];
          forall j | i < j < |init|
            ensures !(CurveIncluded(objs, direct, init[j]) && init[j].name == init[i].name)
          {
            assert init[j] == cs[j];
          }
          assert LastCurve(objs, direct, init, i);
          assert !(CurveIncluded(objs, direct, c) && c.name == cs[i].name);
        }
      }
      assert IncludedCurveNames(objs, direct, cs) == IncludedCurveNames(objs, direct, init) + (if CurveIncluded(objs, direct, c) then {c.name} else {});
    }
  }

  /** An included mesh exported through an object with a name: the first such one names the export. */
  predicate NamedMesh(objs: seq<BlenderObject>, direct: seq<nat>, m: MeshBlock)
    requires InRange(objs, direct)
  {
    MeshIncluded(objs, direct, m) && MeshUserName(objs, direct, m) != ""
  }

  predicate NamedCurve(objs: seq<BlenderObject>, direct: seq<nat>, c: CurveBlock)
    requires InRange(objs, direct)
  {
    CurveIncluded(objs, direct, c) && CurveUserName(objs, direct, c) != ""
  }

  /** The position of the first `true` in `bs`. */
  function FirstTrue(bs: seq<bool>): (r: Option<nat>)
    ensures r.Some? ==> r.value < |bs| && bs[r.value] && forall j :: 0 <= j < r.value ==> !bs[j]
    ensures r.None? ==> forall j :: 0 <= j < |bs| ==> !bs[j]
  {
    if bs == [] then None
    else if bs[0] then Some(0)
    else match FirstTrue(bs[1..])
         case None => None
         case Some(k) => Some(k + 1)
  }

  /** One more flag changes the first `true` only when there was none. */
  lemma FirstTrueSnoc(bs: seq<bool>)
    requires bs != []
    ensures var init := bs[..|bs| - 1];
      FirstTrue(bs) ==
        if FirstTrue(init).Some? then FirstTrue(init)
        else if bs[|bs| - 1] then Some(|bs| - 1)
        else None
  {
    var init := bs[..|bs| - 1];
    assert forall j :: 0 <= j < |init| ==> init[j] == bs[j];
  }

  /** Which meshes of `ms` are named. */
  function MeshFlags(objs: seq<BlenderObject>, direct: seq<nat>, ms: seq<MeshBlock>): (r: seq<bool>)
    requires InRange(objs, direct)
    ensures |r| == |ms| && forall j :: 0 <= j < |ms| ==> r[j] == NamedMesh(objs, direct, ms[j])
  {
    seq(|ms|, j requires 0 <= j < |ms| => NamedMesh(objs, direct, ms[j]))
  }

  /** Which curves of `cs` are named. */
  function CurveFlags(objs: seq<BlenderObject>, direct: seq<nat>, cs: seq<CurveBlock>): (r: seq<bool>)
    requires InRange(objs, direct)
    ensures |r| == |cs| && forall j :: 0 <= j < |cs| ==> r[j] == NamedCurve(objs, direct, cs[j])
  {
    seq(|cs|, j requires 0 <= j < |cs| => NamedCurve(objs, direct, cs[j]))
  }

  /** The position of the first mesh in `ms` that is included through an object with a name. */
  function FirstNamedMesh(objs: seq<BlenderObject>, direct: seq<nat>, ms: seq<MeshBlock>): (r: Option<nat>)
    requires InRange(objs, direct)
    ensures r.Some? ==> r.value < |ms| && NamedMesh(objs, direct, ms[r.value]) &&
                        forall j :: 0 <= j < r.value ==> !NamedMesh(objs, direct, ms[j])
    ensures r.None? ==> forall j :: 0 <= j < |ms| ==> !NamedMesh(objs, direct, ms[j])
  {
    FirstTrue(MeshFlags(objs, direct, ms))
  }

  /** The position of the first curve in `cs` that is included through an object with a name. */
  function FirstNamedCurve(objs: seq<BlenderObject>, direct: seq<nat>, cs: seq<CurveBlock>): (r: Option<nat>)
    requires InRange(objs, direct)
    ensures r.Some? ==> r.value < |cs| && NamedCurve(objs, direct, cs[r.value]) &&
                        forall j :: 0 <= j < r.value ==> !NamedCurve(objs, direct, cs[j])
    ensures r.None? ==> forall j :: 0 <= j < |cs| ==> !NamedCurve(objs, direct, cs[j])
  {
    FirstTrue(CurveFlags(objs, direct, cs))
  }

  /** The name the mesh loop gives an empty default name: that of the first named mesh's object, or none. */
  function FirstMeshName(objs: seq<BlenderObject>, direct: seq<nat>, ms: seq<MeshBlock>): string
    requires InRange(objs, direct)
  {
    match FirstNamedMesh(objs, direct, ms)
    case None => ""
    case Some(i) => MeshUserName(objs, direct, ms[i])
  }

  function FirstCurveName(objs: seq<BlenderObject>, direct: seq<nat>, cs: seq<CurveBlock>): string
    requires InRange(objs, direct)
  {
    match FirstNamedCurve(objs, direct, cs)
    case None => ""
    case Some(i) => CurveUserName(objs, direct, cs[i])
  }

  /** The default name when no object gave one: the first named mesh's object, else the first named curve's, else "Unknown". */
  function FallbackName(objs: seq<BlenderObject>, direct: seq<nat>, ms: seq<MeshBlock>, cs: seq<CurveBlock>): string
    requires InRange(objs, direct)
  {
    var m := FirstMeshName(objs, direct, ms);
    if m != "" then m
    else
      var c := FirstCurveName(objs, direct, cs);
      if c != "" then c else "Unknown"
  }

  /** Extending the meshes by one: the first named mesh stays first, or is the new one. */
  lemma FirstNamedMeshSnoc(objs: seq<BlenderObject>, direct: seq<nat>, ms: seq<MeshBlock>)
    requires InRange(objs, direct) && ms != []
    ensures var init := ms[..|ms| - 1];
      FirstNamedMesh(objs, direct, ms) ==
        if FirstNamedMesh(objs, direct, init).Some? then FirstNamedMesh(objs, direct, init)
        else if NamedMesh(objs, direct, ms[|ms| - 1]) then Some(|ms| - 1)
        else None
  {
    var flags := MeshFlags(objs, direct, ms);
    assert MeshFlags(objs, direct, ms[..|ms| - 1]) == flags[..|flags| - 1];
    FirstTrueSnoc(flags);
  }

  /** Extending the curves by one, likewise. */
  lemma FirstNamedCurveSnoc(objs: seq<BlenderObject>, direct: seq<nat>, cs: seq<CurveBlock>)
    requires InRange(objs, direct) && cs != []
    ensures var init := cs[..|cs| - 1];
      FirstNamedCurve(objs, direct, cs) ==
        if FirstNamedCurve(objs, direct, init).Some? then FirstNamedCurve(objs, direct, init)
        else if NamedCurve(objs, direct, cs[|cs| - 1]) then Some(|cs| - 1)
        else None
  {
    var flags := CurveFlags(objs, direct, cs);
    assert CurveFlags(objs, direct, cs[..|cs| - 1]) == flags[..|flags| - 1];
    FirstTrueSnoc(flags);
  }

  /**
   * The mesh loop keeps a default name that is set; an empty one becomes
   * the name of the object through which the first named mesh is exported,
   * and stays empty when there is none.
   */
  lemma {:induction false} FoldMeshesDefault(objs: seq<BlenderObject>, direct: seq<nat>, opts: FilterOptions, g: Gathered, ms: seq<MeshBlock>)
    requires InRange(objs, direct)
    ensures var r := FoldMeshes(objs, direct, opts, g, ms);
      (g.defaultName != "" ==> r.defaultName == g.defaultName) &&
      (g.defaultName == "" ==> r.defaultName == FirstMeshName(objs, direct, ms))
  {
    if ms != [] {
      var init, m := ms[..|ms| - 1], ms[|ms| - 1];
      var h := FoldMeshes(objs, direct, opts, g, init);
      FoldMeshesDefault(objs, direct, opts, g, init);
      AddMeshDefault(objs, direct, opts, h, m);
      FirstNamedMeshSnoc(objs, direct, ms);
      match FirstNamedMesh(objs, direct, init) {
        case Some(i) => assert ms[i] == init[i];
        case None =>
      }
    }
  }

  /** The curve loop, likewise, with the first named curve's copy. */
  lemma {:induction false} FoldCurvesDefault(objs: seq<BlenderObject>, direct: seq<nat>, opts: FilterOptions, g: Gathered, cs: seq<CurveBlock>)
    requires InRange(objs, direct)
    ensures var r := FoldCurves(objs, direct, opts, g, cs);
      (g.defaultName != "" ==> r.defaultName == g.defaultName) &&
      (g.defaultName == "" ==> r.defaultName == FirstCurveName(objs, direct, cs))
  {
    if cs != [] {
      var init, c := cs[..|cs| - 1], cs[|cs| - 1];
      var h := FoldCurves(objs, direct, opts, g, init);
      FoldCurvesDefault(objs, direct, opts, g, init);
      AddCurveDefault(objs, direct, opts, h, c);
      FirstNamedCurveSnoc(objs, direct, cs);
      match FirstNamedCurve(objs, direct, init) {
        case Some(i) => assert cs[i] == init[i];
        case None =>
      }
    }
  }

  //
  // Cameras and lamps
  //

  /** Python's `x in filtered_objects`: some listed object is the block `id`. */
  predicate AmongObjects(objs: seq<BlenderObject>, filtered: seq<nat>, id: Id)
    requires InRange(objs, filtered)
  {
    exists p :: 0 <= p < |filtered| && Id(ObjectId, objs[filtered[p]].name) == id
  }

  predicate KeepCamera(objs: seq<BlenderObject>, direct: seq<nat>, opts: FilterOptions, c: CameraBlock)
    requires InRange(objs, direct)
  {
    c.users != 0 && (!opts.selected || AmongObjects(objs, direct, Id(CameraId, c.name)))
  }

  predicate KeepLamp(objs: seq<BlenderObject>, direct: seq<nat>, opts: FilterOptions, l: LampBlock)
    requires InRange(objs, direct)
  {
    l.users != 0 && (!opts.selected || AmongObjects(objs, direct, Id(LampId, l.name))) && l.ltype != HemiLamp
  }

  /** The kept cameras among the first `n`, by position. */
  function Cameras(objs: seq<BlenderObject>, direct: seq<nat>, opts: FilterOptions, cams: seq<CameraBlock>, n: nat): seq<nat>
    requires InRange(objs, direct) && n <= |cams|
  {
    if n == 0 then []
    else Cameras(objs, direct, opts, cams, n - 1) + (if KeepCamera(objs, direct, opts, cams[n - 1]) then [n - 1] else [])
  }

  /** The kept lamps among the first `n`, by position. */
  function Lamps(objs: seq<BlenderObject>, direct: seq<nat>, opts: FilterOptions, lamps: seq<LampBlock>, n: nat): seq<nat>
    requires InRange(objs, direct) && n <= |lamps|
  {
    if n == 0 then []
    else Lamps(objs, direct, opts, lamps, n - 1) + (if KeepLamp(objs, direct, opts, lamps[n - 1]) then [n - 1] else [])
  }

  /**
   * No camera without users is kept, and under `gltf_selected` none at all:
   * a Camera block is never equal to an Object, so the membership test in
   * `filtered_objects` always fails.  Otherwise every camera with users is.
   */
  lemma {:induction false} CamerasSpec(objs: seq<BlenderObject>, direct: seq<nat>, opts: FilterOptions, cams: seq<CameraBlock>, n: nat)
    requires InRange(objs, direct) && n <= |cams|
    ensures var r := Cameras(objs, direct, opts, cams, n);
      Increasing(r) &&
      (forall k :: k in r <==> 0 <= k < n && cams[k].users != 0 && !opts.selected) &&
      (opts.selected ==> r == [])
  {
    if n > 0 {
      CamerasSpec(objs, direct, opts, cams, n - 1);
      var r0 := Cameras(objs, direct, opts, cams, n - 1);
      forall p | 0 <= p < |r0| ensures r0[p] < n - 1 {
        assert r0[p] in r0;
      }
    }
  }

  /** Lamps as cameras, and no HEMI lamp is ever kept. */
  lemma {:induction false} LampsSpec(objs: seq<BlenderObject>, direct: seq<nat>, opts: FilterOptions, lamps: seq<LampBlock>, n: nat)
    requires InRange(objs, direct) && n <= |lamps|
    ensures var r := Lamps(objs, direct, opts, lamps, n);
      Increasing(r) &&
      (forall k :: k in r <==> 0 <= k < n && lamps[k].users != 0 && lamps[k].ltype != HemiLamp && !opts.selected) &&
      (opts.selected ==> r == [])
  {
    if n > 0 {
      LampsSpec(objs, direct, opts, lamps, n - 1);
      var r0 := Lamps(objs, direct, opts, lamps, n - 1);
      forall p | 0 <= p < |r0| ensures r0[p] < n - 1 {
        assert r0[p] in r0;
      }
    }
  }

  //
  // Bone numbering
  //

  predicate HasBones(o: BlenderObject)
  {
    o.otype == ArmatureType && |o.bones| != 0
  }

  /** The bone names of the armatures among `objects`, in encounter order. */
  function Bones(objs: seq<BlenderObject>, objects: seq<nat>): seq<string>
    requires InRange(objs, objects)
  {
    if objects == [] then []
    else
      var o := objs[objects[|objects| - 1]];
      Bones(objs, objects[..|objects| - 1]) + (if HasBones(o) then o.bones else [])
  }

  /** `group_index[bone] = len(group_index)` for each bone in turn. */
  function Number(gi: map<string, nat>, bones: seq<string>): map<string, nat>
  {
    if bones == [] then gi
    else
      var g := Number(gi, bones[..|bones| - 1]);
      g[bones[|bones| - 1] := |g|]
  }

  /** Numbering from an empty index gives a number to every bone and to nothing else. */
  lemma {:induction false} NumberKeys(bones: seq<string>)
    ensures Number(map[], bones).Keys == set b | b in bones
  {
    if bones != [] {
      var init := bones[..|bones| - 1];
      NumberKeys(init);
      assert bones == init + [bones[|bones| - 1]];
    }
  }

  /** When bone names are distinct, numbering gives the bones 0, 1, 2, ... in encounter order. */
  lemma {:induction false} NumberOrder(bones: seq<string>)
    requires NoDuplicates(bones)
    ensures var gi := Number(map[], bones);
      |gi| == |bones| && forall k :: 0 <= k < |bones| ==> bones[k] in gi && gi[bones[k]] == k
  {
    if bones != [] {
      var init, last := bones[..|bones| - 1], bones[|bones| - 1];
      assert NoDuplicates(init);
      NumberOrder(init);
      NumberKeys(init);
      assert last !in init;
      var g := Number(map[], init);
      assert last !in g;
      assert Number(map[], bones) == g[last := |g|];
      forall k | 0 <= k < |bones|
        ensures bones[k] in Number(map[], bones) && Number(map[], bones)[bones[k]] == k
      {
        if k < |init| {
          assert bones[k] == init[k] && init[k] != last;
        }
      }
    }
  }

  //
  // filter_apply
  //

  datatype FilterResult = FilterResult(
    objects: seq<nat>,                 // filtered_objects
    defaultName: string,               // gltf_default_name
    meshes: OrderedMap<MeshData>,      // filtered_meshes
    vertexGroups: map<string, string>, // filtered_vertex_groups
    temporary: seq<MeshData>,          // temporary_meshes
    nameMapping: map<string, string>,  // name_mapping
    cameras: seq<nat>,                 // filtered_cameras
    lamps: seq<nat>,                   // filtered_lights
    groupIndex: map<string, nat>)      // group_index

  /** Everything `filter_apply` leaves in the export settings. */
  function Filtered(data: BlendData, opts: FilterOptions): FilterResult
    requires WellFormed(data.objects)
  {
    var objs := data.objects;
    var direct := Direct(objs, opts, |objs|);
    DirectSpec(objs, opts, |objs|);
    var implicit := if WalksParents(opts) then Implicit(objs, direct) else [];
    var g0 := Gathered(InitialName(data, opts), [], map[], [], map[]);
    var g1 := FoldMeshes(objs, direct, opts, g0, data.meshes);
    var g2 := FoldCurves(objs, direct, opts, g1, data.curves);
    ImplicitSpec(objs, direct);
    InRangeAppendNew(objs, direct, implicit);
    var objects := AppendNew(direct, implicit);
    FilterResult(
      objects,
      if g2.defaultName == "" then "Unknown" else g2.defaultName,
      g2.meshes, g2.vertexGroups, g2.temporary, g2.nameMapping,
      Cameras(objs, direct, opts, data.cameras, |data.cameras|),
      Lamps(objs, direct, opts, data.lamps, |data.lamps|),
      if opts.skins then Number(map[], Bones(objs, objects)) else map[])
  }

  /**
   * The objects `filter_apply` exports: the directly selected ones first,
   * then, when parents are walked, every ancestor of one of them not
   * already there; nothing twice and nothing else.
   */
  lemma ObjectsSpec(data: BlendData, opts: FilterOptions)
    requires WellFormed(data.objects)
    ensures var objs := data.objects;
      var r := Filtered(data, opts).objects;
      var direct := Direct(objs, opts, |objs|);
      NoDuplicates(r) && InRange(objs, r) &&
      |direct| <= |r| && r[..|direct|] == direct &&
      (forall k :: k in direct <==> 0 <= k < |objs| && Selectable(objs[k], opts)) &&
      (WalksParents(opts) ==> forall a :: AncestorOfSome(objs, direct, a) ==> a in r) &&
      (forall x :: x in r ==> x in direct || (WalksParents(opts) && AncestorOfSome(objs, direct, x))) &&
      (!WalksParents(opts) ==> r == direct)
  {
    var objs := data.objects;
    var direct := Direct(objs, opts, |objs|);
    DirectSpec(objs, opts, |objs|);
    var implicit := if WalksParents(opts) then Implicit(objs, direct) else [];
    AppendNewSpec(direct, implicit);
    if WalksParents(opts) {
      ImplicitSpec(objs, direct);
    }
    InRangeAppendNew(objs, direct, implicit);
  }

  /** The two loops from empty dictionaries: the key set and the invariants of `MeshesSpec`. */
  lemma LoopsSpec(objs: seq<BlenderObject>, direct: seq<nat>, opts: FilterOptions, name: string,
                  ms: seq<MeshBlock>, cs: seq<CurveBlock>)
    requires InRange(objs, direct)
    ensures var g0 := Gathered(name, [], map[], [], map[]);
      var r := FoldCurves(objs, direct, opts, FoldMeshes(objs, direct, opts, g0, ms), cs);
      KeySet(r.meshes) == r.vertexGroups.Keys == r.nameMapping.Keys &&
      UniqueKeys(r.meshes) &&
      (forall x :: x in KeySet(r.meshes) <==>
         (exists i :: 0 <= i < |ms| && MeshIncluded(objs, direct, ms[i]) && ms[i].name == x) ||
         (exists i :: 0 <= i < |cs| && CurveIncluded(objs, direct, cs[i]) && cs[i].name == x)) &&
      forall i :: 0 <= i < |r.meshes| ==> r.meshes[i].1.Stored? || r.meshes[i].1 in r.temporary
  {
    var g0 := Gathered(name, [], map[], [], map[]);
    var g1 := FoldMeshes(objs, direct, opts, g0, ms);
    FoldMeshesSpec(objs, direct, opts, g0, ms);
    FoldCurvesSpec(objs, direct, opts, g1, cs);
    IncludedMeshNamesSpec(objs, direct, ms);
    IncludedCurveNamesSpec(objs, direct, cs);
  }

  /**
   * Exported meshes: a mesh or curve key is present exactly when the block
   * has users and a directly selected object of the matching type instances
   * it; `filtered_meshes`, `filtered_vertex_groups` and `name_mapping` share
   * that key set, in which `filtered_meshes` holds each key once; and every mesh
   * that is not the stored one is listed among the temporary meshes.
   */
  lemma MeshesSpec(data: BlendData, opts: FilterOptions)
    requires WellFormed(data.objects)
    ensures var objs := data.objects;
      var direct := Direct(objs, opts, |objs|);
      var r := Filtered(data, opts);
      InRange(objs, direct) &&
      KeySet(r.meshes) == r.vertexGroups.Keys == r.nameMapping.Keys &&
      (forall i, j :: 0 <= i < j < |r.meshes| ==> r.meshes[i].0 != r.meshes[j].0) &&
      (forall x :: x in KeySet(r.meshes) <==>
         (exists i :: 0 <= i < |data.meshes| && MeshIncluded(objs, direct, data.meshes[i]) && data.meshes[i].name == x) ||
         (exists i :: 0 <= i < |data.curves| && CurveIncluded(objs, direct, data.curves[i]) && data.curves[i].name == x)) &&
      forall i :: 0 <= i < |r.meshes| ==> r.meshes[i].1.Stored? || r.meshes[i].1 in r.temporary
  {
    var objs := data.objects;
    var direct := Direct(objs, opts, |objs|);
    DirectSpec(objs, opts, |objs|);
    LoopsSpec(objs, direct, opts, InitialName(data, opts), data.meshes, data.curves);
  }

  /**
   * The default name is never empty.  It is the active object's name when
   * there is an active object with a name, else the preset name, else the
   * first selected object's; failing those, the name of the object through
   * which the first mesh (in file order) was included, else that of the
   * copy through which the first curve was, else "Unknown".
   */
  lemma DefaultNameSpec(data: BlendData, opts: FilterOptions)
    requires WellFormed(data.objects)
    ensures var objs := data.objects;
      var direct := Direct(objs, opts, |objs|);
      var r := Filtered(data, opts).defaultName;
      var preset := if data.activeName.Some? then data.activeName.value else opts.defaultName;
      var first := FirstSelected(objs);
      InRange(objs, direct) &&
      r != "" &&
      (data.activeName.Some? && data.activeName.value != "" ==> r == data.activeName.value) &&
      (data.activeName.None? && opts.defaultName != "" ==> r == opts.defaultName) &&
      (preset == "" && first.Some? && objs[first.value].name != "" ==> r == objs[first.value].name) &&
      (InitialName(data, opts) == "" ==> r == FallbackName(objs, direct, data.meshes, data.curves))
  {
    var objs := data.objects;
    var direct := Direct(objs, opts, |objs|);
    DirectSpec(objs, opts, |objs|);
    var g0 := Gathered(InitialName(data, opts), [], map[], [], map[]);
    FoldMeshesDefault(objs, direct, opts, g0, data.meshes);
    var g1 := FoldMeshes(objs, direct, opts, g0, data.meshes);
    FoldCurvesDefault(objs, direct, opts, g1, data.curves);
  }

  /** Some included curve among `cs` has the name `k`. */
  predicate CurveNamed(objs: seq<BlenderObject>, direct: seq<nat>, cs: seq<CurveBlock>, k: string)
    requires InRange(objs, direct)
  {
    exists j :: 0 <= j < |cs| && CurveIncluded(objs, direct, cs[j]) && cs[j].name == k
  }

  /**
   * What each key of the three dictionaries holds: a curve key, the copy
   * through which the last included curve of that name was exported and
   * its mesh; a key no included curve has, the object through which the
   * last included mesh of that name was exported and its mesh.  A curve
   * thus overrides a mesh of the same name.
   */
  lemma MappingSpec(data: BlendData, opts: FilterOptions)
    requires WellFormed(data.objects)
    ensures var objs := data.objects;
      var direct := Direct(objs, opts, |objs|);
      var f := Filtered(data, opts);
      var r := Gathered(f.defaultName, f.meshes, f.vertexGroups, f.temporary, f.nameMapping);
      var ms, cs := data.meshes, data.curves;
      InRange(objs, direct) &&
      (forall i :: 0 <= i < |cs| && CurveIncluded(objs, direct, cs[i]) && LastCurve(objs, direct, cs, i) ==>
         Recorded(r, cs[i].name, CurveUserName(objs, direct, cs[i]), CurveValue(objs, direct, opts, cs[i]))) &&
      (forall i ::
         0 <= i < |ms| && MeshIncluded(objs, direct, ms[i]) && LastMesh(objs, direct, ms, i) && !CurveNamed(objs, direct, cs, ms[i].name) ==>
         Recorded(r, ms[i].name, MeshUserName(objs, direct, ms[i]), MeshValue(objs, direct, opts, ms[i])))
  {
    var objs := data.objects;
    var direct := Direct(objs, opts, |objs|);
    DirectSpec(objs, opts, |objs|);
    var g0 := Gathered(InitialName(data, opts), [], map[], [], map[]);
    var g1 := FoldMeshes(objs, direct, opts, g0, data.meshes);
    FoldMeshesEntries(objs, direct, opts, g0, data.meshes);
    FoldCurvesEntries(objs, direct, opts, g1, data.curves);
    IncludedCurveNamesSpec(objs, direct, data.curves);
  }

  /** With no preset name and no mesh or curve included, the default name is "Unknown". */
  lemma DefaultNameUnknown(data: BlendData, opts: FilterOptions)
    requires WellFormed(data.objects)
    requires InitialName(data, opts) == ""
    requires KeySet(Filtered(data, opts).meshes) == {}
    ensures Filtered(data, opts).defaultName == "Unknown"
  {
    var objs := data.objects;
    var direct := Direct(objs, opts, |objs|);
    DirectSpec(objs, opts, |objs|);
    var g0 := Gathered(InitialName(data, opts), [], map[], [], map[]);
    FoldMeshesSpec(objs, direct, opts, g0, data.meshes);
    var g1 := FoldMeshes(objs, direct, opts, g0, data.meshes);
    FoldCurvesSpec(objs, direct, opts, g1, data.curves);
    NoKeysNoName(objs, direct, opts, g0, data.meshes);
    NoKeysNoNameCurves(objs, direct, opts, g1, data.curves);
  }

  /** When the mesh loop leaves no key, it has changed nothing. */
  lemma {:induction false} NoKeysNoName(objs: seq<BlenderObject>, direct: seq<nat>, opts: FilterOptions, g: Gathered, ms: seq<MeshBlock>)
    requires InRange(objs, direct)
    requires KeySet(FoldMeshes(objs, direct, opts, g, ms).meshes) == {}
    ensures FoldMeshes(objs, direct, opts, g, ms) == g
  {
    if ms != [] {
      var h := FoldMeshes(objs, direct, opts, g, ms[..|ms| - 1]);
      var m := ms[|ms| - 1];
      assert m.users == 0 || FirstUser(objs, direct, MeshKinds, m.id).None?;
      NoKeysNoName(objs, direct, opts, g, ms[..|ms| - 1]);
    }
  }

  /** Likewise for the curve loop. */
  lemma {:induction false} NoKeysNoNameCurves(objs: seq<BlenderObject>, direct: seq<nat>, opts: FilterOptions, g: Gathered, cs: seq<CurveBlock>)
    requires InRange(objs, direct)
    requires KeySet(FoldCurves(objs, direct, opts, g, cs).meshes) == {}
    ensures FoldCurves(objs, direct, opts, g, cs) == g
  {
    if cs != [] {
      var h := FoldCurves(objs, direct, opts, g, cs[..|cs| - 1]);
      var c := cs[|cs| - 1];
      assert c.users == 0 || FirstUser(objs, direct, CurveKinds, c.id).None?;
      NoKeysNoNameCurves(objs, direct, opts, g, cs[..|cs| - 1]);
    }
  }

  /** `group_index` is empty without skins; with them it names every bone of the exported armatures, numbered in encounter order when bone names are distinct. */
  lemma GroupIndexSpec(data: BlendData, opts: FilterOptions)
    requires WellFormed(data.objects)
    ensures var r := Filtered(data, opts);
      InRange(data.objects, r.objects) &&
      var bones := Bones(data.objects, r.objects);
      (!opts.skins ==> r.groupIndex == map[]) &&
      (opts.skins ==>
         r.groupIndex.Keys == (set b | b in bones) &&
         (NoDuplicates(bones) ==> forall k :: 0 <= k < |bones| ==> bones[k] in r.groupIndex && r.groupIndex[bones[k]] == k))
  {
    ObjectsSpec(data, opts);
    var bones := Bones(data.objects, Filtered(data, opts).objects);
    NumberKeys(bones);
    if NoDuplicates(bones) {
      NumberOrder(bones);
    }
  }

  //
  // filter_apply, loop by loop
  //

  /** The ancestors still to visit from `current`, when `fuel` steps are left after it. */
  function Rest(objs: seq<BlenderObject>, current: Option<nat>, fuel: nat): seq<nat>
    requires ParentsInRange(objs) && (current.Some? ==> current.value < |objs|)
  {
    match current
    case None => []
    case Some(c) => [c] + Chain(objs, c, fuel)
  }

  /** One step up the parent chain moves the next ancestor from what is left to what is walked. */
  lemma WalkStep(objs: seq<BlenderObject>, ancestors: seq<nat>, walked: seq<nat>, c: nat, fuel: nat)
    requires ParentsInRange(objs) && c < |objs| && ReachesRoot(objs, c, fuel)
    requires ancestors == walked + Rest(objs, Some(c), fuel)
    ensures var next := objs[c].parent;
      var left := if fuel > 0 then fuel - 1 else 0;
      (next.Some? ==> next.value < |objs| && ReachesRoot(objs, next.value, left)) &&
      ancestors == (walked + [c]) + Rest(objs, next, left)
  {
    var next := objs[c].parent;
    var left := if fuel > 0 then fuel - 1 else 0;
    var rest := Rest(objs, next, left);
    match next {
      case None =>
        assert Chain(objs, c, fuel) == [] == rest;
      case Some(p) =>
        assert Chain(objs, c, fuel) == [p] + Chain(objs, p, left) == rest;
    }
    assert Rest(objs, Some(c), fuel) == [c] + rest;
    assert walked + ([c] + rest) == (walked + [c]) + rest;
  }

  /** The inner loop of the first pass: follows parent links from object `i` up to a root. */
  method WalkParents(objs: seq<BlenderObject>, i: nat, acc: seq<nat>) returns (implicit: seq<nat>)
    requires ParentsInRange(objs) && i < |objs| && ReachesRoot(objs, i, |objs|)
    ensures implicit == AppendNew(acc, Ancestors(objs, i))
  {
    implicit := acc;
    var current: Option<nat> := objs[i].parent;
    ghost var fuel: nat := |objs| - 1;
    ghost var walked: seq<nat> := [];
    ghost var ancestors := Ancestors(objs, i);
    assert ancestors == Rest(objs, current, fuel);
    while current.Some?
      invariant current.Some? ==> current.value < |objs| && ReachesRoot(objs, current.value, fuel)
      invariant ancestors == walked + Rest(objs, current, fuel)
      invariant implicit == AppendNew(acc, walked)
      decreases if current.Some? then fuel + 1 else 0
    {
      var c := current.value;
      WalkStep(objs, ancestors, walked, c, fuel);
      if c !in implicit {
        implicit := implicit + [c];
      }
      AppendNewStep(acc, walked, c);
      walked := walked + [c];
      current := objs[c].parent;
      fuel := if fuel > 0 then fuel - 1 else 0;
    }
    assert walked == ancestors;
  }

  /**
   * The first loop over the file's objects: keeps the directly selected
   * ones and, when parents are walked, collects their ancestors by
   * following each parent link up to a root.
   */
  method SelectObjects(objs: seq<BlenderObject>, opts: FilterOptions) returns (direct: seq<nat>, implicit: seq<nat>)
    requires WellFormed(objs)
    ensures direct == Direct(objs, opts, |objs|)
    ensures InRange(objs, direct)
    ensures implicit == if WalksParents(opts) then Implicit(objs, direct) else []
  {
    direct := [];
    implicit := [];
    for i := 0 to |objs|
      invariant direct == Direct(objs, opts, i)
      invariant InRange(objs, direct)
      invariant implicit == if WalksParents(opts) then Implicit(objs, direct) else []
    {
      var o := objs[i];
      if o.users == 0 {
        continue;
      }
      if opts.selected && !o.select {
        continue;
      }
      if !opts.layers && !o.layer0 {
        continue;
      }
      ghost var previous := direct;
      direct := direct + [i];
      assert direct[..|direct| - 1] == previous;

      if opts.selected || !opts.layers {
        assert ReachesRoot(objs, i, |objs|);
        implicit := WalkParents(objs, i, implicit);
      }
    }
    DirectSpec(objs, opts, |objs|);
  }

  /** The default name before meshes: the active object's, else the preset, else the first selected object's. */
  method InitialDefaultName(data: BlendData, opts: FilterOptions) returns (name: string)
    ensures name == InitialName(data, opts)
  {
    name := opts.defaultName;
    if data.activeName.Some? {
      name := data.activeName.value;
    }
    if name == "" {
      var i := 0;
      while i < |data.objects|
        invariant 0 <= i <= |data.objects|
        invariant forall j :: 0 <= j < i ==> !data.objects[j].select
        invariant name == ""
      {
        if data.objects[i].select {
          name := data.objects[i].name;
          break;
        }
        i := i + 1;
      }
    }
  }

  /** The inner search of the mesh and curve loops: the first directly selected object of one of `kinds` that instances `block`. */
  method FindUser(objs: seq<BlenderObject>, direct: seq<nat>, kinds: set<ObjectType>, block: nat) returns (found: Option<nat>)
    requires InRange(objs, direct)
    ensures found == FirstUser(objs, direct, kinds, block)
  {
    found := None;
    for p := 0 to |direct|
      invariant forall q :: 0 <= q < p ==> !Uses(objs[direct[q]], kinds, block)
    {
      var o := objs[direct[p]];
      if o.otype !in kinds {
        continue;
      }
      if o.data == Some(block) {
        found := Some(p);
        break;
      }
    }
  }

  /** One turn of the loop over `bpy.data.meshes`: the `continue`s become early returns. */
  method IncludeMesh(objs: seq<BlenderObject>, direct: seq<nat>, opts: FilterOptions, g0: Gathered, m: MeshBlock)
    returns (g: Gathered)
    requires InRange(objs, direct)
    ensures g == AddMesh(objs, direct, opts, g0, m)
  {
    g := g0;
    if m.users == 0 {
      return;
    }
    var found := FindUser(objs, direct, MeshKinds, m.id);
    if found.None? {
      return;
    }
    var o := objs[direct[found.value]];
    var objName := o.name;
    var useAutoSmooth := m.useAutoSmooth;
    if useAutoSmooth {
      if !m.hasShapeKeys {
        objName := o.copyName;
      } else {
        useAutoSmooth := false;
      }
    }
    var mesh := Stored(m.id, m.name);
    var temporary := g.temporary;
    if opts.apply || useAutoSmooth {
      mesh := Evaluated(objName);
      temporary := temporary + [mesh];
    }
    if opts.local {
      mesh := Localised(mesh, objName);
      temporary := temporary + [mesh];
    }
    assert MeshIncluded(objs, direct, m) && objName == MeshUserName(objs, direct, m);
    assert mesh == MeshValue(objs, direct, opts, m) && temporary == g.temporary + Derived(mesh);
    var defaultName := g.defaultName;
    if defaultName == "" {
      defaultName := objName;
    }
    g := Gathered(defaultName, Put(g.meshes, m.name, mesh), g.vertexGroups[m.name := objName],
                  temporary, g.nameMapping[m.name := objName]);
  }

  /** The loop over `bpy.data.meshes`. */
  method IncludeMeshes(objs: seq<BlenderObject>, direct: seq<nat>, opts: FilterOptions, g0: Gathered, meshes: seq<MeshBlock>)
    returns (g: Gathered)
    requires InRange(objs, direct)
    ensures g == FoldMeshes(objs, direct, opts, g0, meshes)
  {
    g := g0;
    for i := 0 to |meshes|
      invariant g == FoldMeshes(objs, direct, opts, g0, meshes[..i])
    {
      assert meshes[..i + 1][..i] == meshes[..i];
      g := IncludeMesh(objs, direct, opts, g, meshes[i]);
    }
    assert meshes[..|meshes|] == meshes;
  }

  /** One turn of the loop over `bpy.data.curves`. */
  method IncludeCurve(objs: seq<BlenderObject>, direct: seq<nat>, opts: FilterOptions, g0: Gathered, c: CurveBlock)
    returns (g: Gathered)
    requires InRange(objs, direct)
    ensures g == AddCurve(objs, direct, opts, g0, c)
  {
    g := g0;
    if c.users == 0 {
      return;
    }
    var found := FindUser(objs, direct, CurveKinds, c.id);
    if found.None? {
      return;
    }
    var objName := objs[direct[found.value]].copyName;
    var mesh := Evaluated(objName);
    var temporary := g.temporary + [mesh];
    if opts.local {
      mesh := Localised(mesh, objName);
      temporary := temporary + [mesh];
    }
    assert CurveIncluded(objs, direct, c) && objName == CurveUserName(objs, direct, c);
    assert mesh == CurveValue(objs, direct, opts, c) && temporary == g.temporary + Derived(mesh);
    var defaultName := g.defaultName;
    if defaultName == "" {
      defaultName := objName;
    }
    g := Gathered(defaultName, Put(g.meshes, c.name, mesh), g.vertexGroups[c.name := objName],
                  temporary, g.nameMapping[c.name := objName]);
  }

  /** The loop over `bpy.data.curves`. */
  method IncludeCurves(objs: seq<BlenderObject>, direct: seq<nat>, opts: FilterOptions, g0: Gathered, curves: seq<CurveBlock>)
    returns (g: Gathered)
    requires InRange(objs, direct)
    ensures g == FoldCurves(objs, direct, opts, g0, curves)
  {
    g := g0;
    for i := 0 to |curves|
      invariant g == FoldCurves(objs, direct, opts, g0, curves[..i])
    {
      assert curves[..i + 1][..i] == curves[..i];
      g := IncludeCurve(objs, direct, opts, g, curves[i]);
    }
    assert curves[..|curves|] == curves;
  }

  /** The loop over `bpy.data.cameras`. */
  method FilterCameras(objs: seq<BlenderObject>, direct: seq<nat>, opts: FilterOptions, cams: seq<CameraBlock>)
    returns (kept: seq<nat>)
    requires InRange(objs, direct)
    ensures kept == Cameras(objs, direct, opts, cams, |cams|)
  {
    kept := [];
    for i := 0 to |cams|
      invariant kept == Cameras(objs, direct, opts, cams, i)
    {
      var c := cams[i];
      if c.users == 0 {
        continue;
      }
      if opts.selected {
        if !AmongObjects(objs, direct, Id(CameraId, c.name)) {
          continue;
        }
      }
      kept := kept + [i];
    }
  }

  /** The loop over `bpy.data.lamps`. */
  method FilterLamps(objs: seq<BlenderObject>, direct: seq<nat>, opts: FilterOptions, lamps: seq<LampBlock>)
    returns (kept: seq<nat>)
    requires InRange(objs, direct)
    ensures kept == Lamps(objs, direct, opts, lamps, |lamps|)
  {
    kept := [];
    for i := 0 to |lamps|
      invariant kept == Lamps(objs, direct, opts, lamps, i)
    {
      var l := lamps[i];
      if l.users == 0 {
        continue;
      }
      if opts.selected {
        if !AmongObjects(objs, direct, Id(LampId, l.name)) {
          continue;
        }
      }
      if l.ltype == HemiLamp {
        continue;
      }
      kept := kept + [i];
    }
  }

  /** Appends the implicit objects not yet among the filtered ones. */
  method AppendImplicit(direct: seq<nat>, implicit: seq<nat>) returns (objects: seq<nat>)
    ensures objects == AppendNew(direct, implicit)
  {
    objects := direct;
    for i := 0 to |implicit|
      invariant objects == AppendNew(direct, implicit[..i])
    {
      AppendNewStep(direct, implicit[..i], implicit[i]);
      assert implicit[..i + 1] == implicit[..i] + [implicit[i]];
      if implicit[i] !in objects {
        objects := objects + [implicit[i]];
      }
    }
    assert implicit[..|implicit|] == implicit;
  }

  /** The inner loop of the bone numbering: numbers one armature's bones after those already numbered. */
  method NumberBones(gi0: map<string, nat>, ghost before: seq<string>, bones: seq<string>) returns (gi: map<string, nat>)
    requires gi0 == Number(map[], before)
    ensures gi == Number(map[], before + bones)
  {
    gi := gi0;
    assert before + bones[..0] == before;
    for j := 0 to |bones|
      invariant gi == Number(map[], before + bones[..j])
    {
      assert (before + bones[..j + 1])[..|before| + j] == before + bones[..j];
      gi := gi[bones[j] := |gi|];
    }
    assert bones[..|bones|] == bones;
  }

  /** Numbers the bones of the exported armatures when skins are exported. */
  method GroupIndex(objs: seq<BlenderObject>, objects: seq<nat>, skins: bool) returns (gi: map<string, nat>)
    requires InRange(objs, objects)
    ensures gi == if skins then Number(map[], Bones(objs, objects)) else map[]
  {
    gi := map[];
    if skins {
      for i := 0 to |objects|
        invariant gi == Number(map[], Bones(objs, objects[..i]))
      {
        var o := objs[objects[i]];
        ghost var before := Bones(objs, objects[..i]);
        assert objects[..i + 1][..i] == objects[..i];
        assert Bones(objs, objects[..i + 1]) == before + (if HasBones(o) then o.bones else []);
        if o.otype != ArmatureType || |o.bones| == 0 {
          assert before + [] == before;
          continue;
        }
        gi := NumberBones(gi, before, o.bones);
      }
      assert objects[..|objects|] == objects;
    }
  }

  /** `filter_apply`: every setting it produces, as `Filtered` describes them. */
  method FilterApply(data: BlendData, opts: FilterOptions) returns (r: FilterResult)
    requires WellFormed(data.objects)
    ensures r == Filtered(data, opts)
  {
    var objs := data.objects;
    var direct, implicit := SelectObjects(objs, opts);
    var defaultName := InitialDefaultName(data, opts);

    var g := IncludeMeshes(objs, direct, opts, Gathered(defaultName, [], map[], [], map[]), data.meshes);
    g := IncludeCurves(objs, direct, opts, g, data.curves);
    defaultName := g.defaultName;
    if defaultName == "" {
      defaultName := "Unknown";
    }

    var cameras := FilterCameras(objs, direct, opts, data.cameras);
    var lamps := FilterLamps(objs, direct, opts, data.lamps);

    ImplicitSpec(objs, direct);
    InRangeAppendNew(objs, direct, implicit);
    var objects := AppendImplicit(direct, implicit);
    var groupIndex := GroupIndex(objs, objects, opts.skins);

    r := FilterResult(objects, defaultName, g.meshes, g.vertexGroups, g.temporary, g.nameMapping,
                      cameras, lamps, groupIndex);
  }
}
