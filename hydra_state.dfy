/**
 * The bookkeeping of the Hydra scene delegate as values: the exported
 * objects and materials, keyed by prim id, and the calls made on the
 * render index in order. The delegate class applies these rules to its
 * fields; here they are stated and their invariants proved.
 */
module HydraState {
  import opened Wrappers
  import opened HydraIds

  /** A prim type token (HdPrimTypeTokens, HdBlenderTokens). */
  datatype PrimType = PrimType(token: string)

  const MESH := PrimType("mesh")
  const EMPTY := PrimType("empty")
  const MATERIAL_TOKEN := "material"
  const DOME_LIGHT_TOKEN := "domeLight"
  const MATERIAL_ID_KEY := "materialId"

  /** The VtValues the delegate stores or hands out. */
  datatype Value = PathValue(path: SdfPath) | AssetValue(asset: string) | IntValue(i: int) | OtherValue(token: string)

  /** The Blender object as the delegate sees it. */
  datatype BObject = BObject(ptr: Pointer, obType: int, material: Option<Pointer>)

  /** ObjectData: the object it was made from, its prim type and its exported data. */
  datatype ObjectData = ObjectData(ob: BObject, primType: PrimType, data: map<string, Value>)

  /** MaterialData: the material, its MaterialX file once exported, and how many times it was exported. */
  datatype MaterialData = MaterialData(material: nat, mtlxPath: string, exports: nat)

  /**
   * The parts of ObjectData and MaterialData whose code is not part of
   * this model: the prim type and data an object exports, and the file
   * export_mtlx writes for a material.
   */
  datatype Exporter = Exporter(
    primTypeOf: BObject -> PrimType,
    dataOf: BObject -> map<string, Value>,
    mtlxPathOf: nat -> string)

  /** A freshly exported object carries no material id until set_material gives it one. */
  ghost predicate ExporterOk(ex: Exporter)
  {
    forall ob :: MATERIAL_ID_KEY !in ex.dataOf(ob)
  }

  datatype Dirty = AllDirty | DirtyTransform | DirtyMaterialId | DirtyVisibility | DirtyParams

  /** A call on the render index or its change tracker. */
  datatype IndexCall =
    | InsertRprim(rkind: PrimType, id: SdfPath)
    | InsertSprim(skind: string, id: SdfPath)
    | RemoveRprim(id: SdfPath)
    | RemoveSprim(skind: string, id: SdfPath)
    | MarkRprimDirty(id: SdfPath, bits: Dirty)
    | MarkSprimDirty(id: SdfPath, bits: Dirty)

  datatype DelegateState = DelegateState(
    objects: map<SdfPath, ObjectData>,
    materials: map<SdfPath, MaterialData>,
    calls: seq<IndexCall>)

  function NewObjectData(ex: Exporter, ob: BObject): ObjectData
  {
    ObjectData(ob, ex.primTypeOf(ob), ex.dataOf(ob))
  }

  function ExportMtlx(ex: Exporter, m: MaterialData): MaterialData
  {
    m.(mtlxPath := ex.mtlxPathOf(m.material), exports := m.exports + 1)
  }

  /** The material id an object's data carries, if any. */
  predicate HasMaterialId(d: ObjectData)
  {
    MATERIAL_ID_KEY in d.data && d.data[MATERIAL_ID_KEY].PathValue?
  }

  /** The materials referenced by some object (available_materials). */
  function Referenced(objects: map<SdfPath, ObjectData>): (r: set<SdfPath>)
    ensures forall id :: id in objects && HasMaterialId(objects[id]) ==> objects[id].data[MATERIAL_ID_KEY].path in r
  {
    set id | id in objects && HasMaterialId(objects[id]) :: objects[id].data[MATERIAL_ID_KEY].path
  }

  /**
   * The invariant of the delegate: each object sits under the id of its
   * own Blender object, and every material an object refers to has been
   * exported.
   */
  ghost predicate ValidState(ex: Exporter, delegateId: SdfPath, st: DelegateState)
  {
    && ExporterOk(ex)
    && (forall id :: id in st.objects ==> id == ObjectId(delegateId, st.objects[id].ob.ptr))
    && (forall m :: m in Referenced(st.objects) && m != EmptyPath ==> m in st.materials)
  }

  /** The id set_material gives an object: its material's id, or the empty path without one. */
  function MaterialPathOf(delegateId: SdfPath, ob: BObject): (p: SdfPath)
    ensures ob.material.None? <==> p == EmptyPath
  {
    KindsDisjointAll(delegateId);
    if ob.material.None? then EmptyPath else MaterialId(delegateId, ob.material.value)
  }

  lemma KindsDisjointAll(delegateId: SdfPath)
    ensures forall p: Pointer :: MaterialId(delegateId, p) != EmptyPath
  {
    forall p: Pointer
      ensures MaterialId(delegateId, p) != EmptyPath
    {
      KindsDisjoint(delegateId, p, p);
    }
  }

  /**
   * set_material: the object gets its material's id; the material is
   * exported and inserted as a material sprim only when it is not known
   * yet.
   */
  function SetMaterialSpec(ex: Exporter, delegateId: SdfPath, st: DelegateState, d: ObjectData): (r: (DelegateState, ObjectData))
    ensures r.0.objects == st.objects
    ensures r.1 == d.(data := d.data[MATERIAL_ID_KEY := PathValue(MaterialPathOf(delegateId, d.ob))])
    ensures d.ob.material.Some? ==> MaterialPathOf(delegateId, d.ob) in r.0.materials
    ensures st.materials.Keys <= r.0.materials.Keys
    ensures forall m :: m in st.materials ==> r.0.materials[m] == st.materials[m]
    ensures |st.calls| <= |r.0.calls| && r.0.calls[..|st.calls|] == st.calls
    ensures r.0.materials == MaterialsWith(ex, delegateId, st, d.ob)
    ensures r.0.calls == st.calls + MaterialInsert(delegateId, st, d.ob)
  {
    var withId := d.(data := d.data[MATERIAL_ID_KEY := PathValue(MaterialPathOf(delegateId, d.ob))]);
    if d.ob.material.None? then (st, withId)
    else
      var id := MaterialId(delegateId, d.ob.material.value);
      if id in st.materials then (st, withId)
      else
        (st.(materials := st.materials[id := ExportMtlx(ex, MaterialData(d.ob.material.value, "", 0))],
             calls := st.calls + [InsertSprim(MATERIAL_TOKEN, id)]), withId)
  }

  /** The material sprim set_material inserts: one for the object's material when it is not stored yet. */
  function MaterialInsert(delegateId: SdfPath, st: DelegateState, ob: BObject): seq<IndexCall>
  {
    if ob.material.Some? && MaterialId(delegateId, ob.material.value) !in st.materials
    then [InsertSprim(MATERIAL_TOKEN, MaterialId(delegateId, ob.material.value))]
    else []
  }

  /** The materials after set_material: a material not stored yet is added, exported once. */
  function MaterialsWith(ex: Exporter, delegateId: SdfPath, st: DelegateState, ob: BObject): map<SdfPath, MaterialData>
  {
    if ob.material.Some? && MaterialId(delegateId, ob.material.value) !in st.materials
    then st.materials[MaterialId(delegateId, ob.material.value) := ExportMtlx(ex, MaterialData(ob.material.value, "", 0))]
    else st.materials
  }

  /**
   * The data add_update_object stores for a freshly exported object: the
   * exporter's prim type and data, and for a mesh also the id of its
   * material (the empty path when it has none).
   */
  predicate FreshExport(ex: Exporter, delegateId: SdfPath, ob: BObject, d: ObjectData)
  {
    && d.ob == ob
    && d.primType == ex.primTypeOf(ob)
    && d.data == if ex.primTypeOf(ob) == MESH
                 then ex.dataOf(ob)[MATERIAL_ID_KEY := PathValue(MaterialPathOf(delegateId, ob))]
                 else ex.dataOf(ob)
  }

  /** A material sprim is inserted at most once: a second set_material for it adds no call. */
  lemma MaterialInsertedOnce(ex: Exporter, delegateId: SdfPath, st: DelegateState, d: ObjectData, d2: ObjectData)
    requires d.ob.material == d2.ob.material
    ensures var st1 := SetMaterialSpec(ex, delegateId, st, d).0;
      SetMaterialSpec(ex, delegateId, st1, d2).0 == st1
  {
  }

  /** The dirty marks of an update without geometry, from the stored data. */
  function MarkCalls(id: SdfPath, stored: ObjectData, transform: bool, shading: bool): seq<IndexCall>
  {
    (if transform then
       (if stored.primType == MESH then [MarkRprimDirty(id, DirtyTransform)]
        else if stored.ob.obType == OB_LAMP then [MarkSprimDirty(id, DirtyTransform)]
        else [])
     else [])
    + (if shading && stored.primType == MESH then [MarkRprimDirty(id, DirtyMaterialId)] else [])
  }

  /**
   * add_update_object for an id not stored yet: the object is exported and
   * stored; a mesh gets an rprim and then its material, a lamp an sprim,
   * any other type no index call.
   */
  function AddNew(ex: Exporter, delegateId: SdfPath, st: DelegateState, ob: BObject): (r: DelegateState)
    ensures ObjectId(delegateId, ob.ptr) in r.objects
    ensures r.objects == st.objects[ObjectId(delegateId, ob.ptr) := r.objects[ObjectId(delegateId, ob.ptr)]]
    ensures FreshExport(ex, delegateId, ob, r.objects[ObjectId(delegateId, ob.ptr)])
    ensures ex.primTypeOf(ob) == MESH ==>
      r.materials == MaterialsWith(ex, delegateId, st, ob) &&
      r.calls == st.calls + [InsertRprim(MESH, ObjectId(delegateId, ob.ptr))] + MaterialInsert(delegateId, st, ob)
    ensures st.materials.Keys <= r.materials.Keys
    ensures forall m :: m in st.materials ==> r.materials[m] == st.materials[m]
    ensures |st.calls| <= |r.calls| && r.calls[..|st.calls|] == st.calls
    ensures ex.primTypeOf(ob) != MESH ==>
      r.materials == st.materials &&
      r.calls == st.calls + (if ob.obType == OB_LAMP then [InsertSprim(ex.primTypeOf(ob).token, ObjectId(delegateId, ob.ptr))] else [])
  {
    var id := ObjectId(delegateId, ob.ptr);
    var d := NewObjectData(ex, ob);
    if d.primType == MESH then
      var st0 := st.(calls := st.calls + [InsertRprim(MESH, id)]);
      var (st1, d1) := SetMaterialSpec(ex, delegateId, st0, d);
      assert st1.calls[..|st.calls|] == st0.calls[..|st.calls|];
      assert st1.calls[..|st0.calls|] == st0.calls;
      st1.(objects := st1.objects[id := d1])
    else if ob.obType == OB_LAMP then
      st.(objects := st.objects[id := d], calls := st.calls + [InsertSprim(d.primType.token, id)])
    else
      st.(objects := st.objects[id := d])
  }

  /**
   * add_update_object for a stored id whose geometry changed: the entry is
   * replaced by a fresh export; a mesh gets its material and is marked all
   * dirty, a lamp is marked all dirty, any other type gets no index call.
   */
  function Replace(ex: Exporter, delegateId: SdfPath, st: DelegateState, ob: BObject): (r: DelegateState)
    ensures ObjectId(delegateId, ob.ptr) in r.objects
    ensures r.objects == st.objects[ObjectId(delegateId, ob.ptr) := r.objects[ObjectId(delegateId, ob.ptr)]]
    ensures FreshExport(ex, delegateId, ob, r.objects[ObjectId(delegateId, ob.ptr)])
    ensures ex.primTypeOf(ob) == MESH ==>
      r.materials == MaterialsWith(ex, delegateId, st, ob) &&
      r.calls == st.calls + MaterialInsert(delegateId, st, ob) + [MarkRprimDirty(ObjectId(delegateId, ob.ptr), AllDirty)]
    ensures st.materials.Keys <= r.materials.Keys
    ensures forall m :: m in st.materials ==> r.materials[m] == st.materials[m]
    ensures |st.calls| <= |r.calls| && r.calls[..|st.calls|] == st.calls
    ensures ex.primTypeOf(ob) != MESH ==>
      r.materials == st.materials &&
      r.calls == st.calls + (if ob.obType == OB_LAMP then [MarkSprimDirty(ObjectId(delegateId, ob.ptr), AllDirty)] else [])
  {
    var id := ObjectId(delegateId, ob.ptr);
    var d := NewObjectData(ex, ob);
    if d.primType == MESH then
      var (st1, d1) := SetMaterialSpec(ex, delegateId, st, d);
      st1.(objects := st1.objects[id := d1], calls := st1.calls + [MarkRprimDirty(id, AllDirty)])
    else if ob.obType == OB_LAMP then
      st.(objects := st.objects[id := d], calls := st.calls + [MarkSprimDirty(id, AllDirty)])
    else
      st.(objects := st.objects[id := d])
  }

  /**
   * add_update_object. An unknown object is exported and stored (a mesh
   * with an rprim and its material, a lamp with an sprim); a known one is
   * replaced and marked all dirty when its geometry changed, and otherwise
   * only marked dirty, its stored data kept.
   */
  function AddUpdate(ex: Exporter, delegateId: SdfPath, st: DelegateState, ob: BObject,
                     geometry: bool, transform: bool, shading: bool): (r: DelegateState)
    ensures r.objects.Keys == st.objects.Keys + {ObjectId(delegateId, ob.ptr)}
    ensures forall k :: k in st.objects && k != ObjectId(delegateId, ob.ptr) ==> r.objects[k] == st.objects[k]
    ensures st.materials.Keys <= r.materials.Keys
    ensures forall m :: m in st.materials ==> r.materials[m] == st.materials[m]
    ensures |st.calls| <= |r.calls| && r.calls[..|st.calls|] == st.calls
    ensures ObjectId(delegateId, ob.ptr) in st.objects && !geometry ==>
      r.objects == st.objects && r.materials == st.materials &&
      r.calls == st.calls + MarkCalls(ObjectId(delegateId, ob.ptr), st.objects[ObjectId(delegateId, ob.ptr)], transform, shading)
    ensures ObjectId(delegateId, ob.ptr) !in st.objects || geometry ==>
      FreshExport(ex, delegateId, ob, r.objects[ObjectId(delegateId, ob.ptr)]) &&
      r.materials == (if ex.primTypeOf(ob) == MESH then MaterialsWith(ex, delegateId, st, ob) else st.materials)
    ensures ObjectId(delegateId, ob.ptr) !in st.objects ==>
      r.calls == st.calls +
        if ex.primTypeOf(ob) == MESH then [InsertRprim(MESH, ObjectId(delegateId, ob.ptr))] + MaterialInsert(delegateId, st, ob)
        else if ob.obType == OB_LAMP then [InsertSprim(ex.primTypeOf(ob).token, ObjectId(delegateId, ob.ptr))]
        else []
    ensures ObjectId(delegateId, ob.ptr) in st.objects && geometry ==>
      r.calls == st.calls +
        if ex.primTypeOf(ob) == MESH then MaterialInsert(delegateId, st, ob) + [MarkRprimDirty(ObjectId(delegateId, ob.ptr), AllDirty)]
        else if ob.obType == OB_LAMP then [MarkSprimDirty(ObjectId(delegateId, ob.ptr), AllDirty)]
        else []
  {
    var id := ObjectId(delegateId, ob.ptr);
    if id !in st.objects then AddNew(ex, delegateId, st, ob)
    else if geometry then Replace(ex, delegateId, st, ob)
    else st.(calls := st.calls + MarkCalls(id, st.objects[id], transform, shading))
  }

  /** Storing data under its own id, with any material it names exported, keeps the invariant. */
  lemma StoreKeepsValid(ex: Exporter, delegateId: SdfPath, st: DelegateState, id: SdfPath, d: ObjectData)
    requires ValidState(ex, delegateId, st)
    requires id == ObjectId(delegateId, d.ob.ptr)
    requires HasMaterialId(d) ==> d.data[MATERIAL_ID_KEY].path == EmptyPath || d.data[MATERIAL_ID_KEY].path in st.materials
    ensures ValidState(ex, delegateId, st.(objects := st.objects[id := d]))
  {
    var objs := st.objects[id := d];
    forall m | m in Referenced(objs) && m != EmptyPath
      ensures m in st.materials
    {
      var k :| k in objs && HasMaterialId(objs[k]) && objs[k].data[MATERIAL_ID_KEY].path == m;
      if k != id {
        assert m in Referenced(st.objects);
      }
    }
  }

  /** More materials, same objects: the invariant still holds. */
  lemma MoreMaterialsKeepValid(ex: Exporter, delegateId: SdfPath, st: DelegateState, st1: DelegateState)
    requires ValidState(ex, delegateId, st)
    requires st1.objects == st.objects && st.materials.Keys <= st1.materials.Keys
    ensures ValidState(ex, delegateId, st1)
  {
  }

  /** Exporting an object (and the material a mesh names) keeps the invariant. */
  lemma ExportKeepsValid(ex: Exporter, delegateId: SdfPath, st: DelegateState, ob: BObject, st0: DelegateState)
    requires ValidState(ex, delegateId, st)
    requires st0.objects == st.objects && st0.materials == st.materials
    ensures var id := ObjectId(delegateId, ob.ptr);
      var d := NewObjectData(ex, ob);
      && ValidState(ex, delegateId, st0.(objects := st0.objects[id := d]))
      && ValidState(ex, delegateId, SetMaterialSpec(ex, delegateId, st0, d).0.(objects := st0.objects[id := SetMaterialSpec(ex, delegateId, st0, d).1]))
  {
    var id := ObjectId(delegateId, ob.ptr);
    var d := NewObjectData(ex, ob);
    assert !HasMaterialId(d);
    assert ValidState(ex, delegateId, st0);
    StoreKeepsValid(ex, delegateId, st0, id, d);
    var (st1, d1) := SetMaterialSpec(ex, delegateId, st0, d);
    MoreMaterialsKeepValid(ex, delegateId, st0, st1);
    StoreKeepsValid(ex, delegateId, st1, id, d1);
  }

  /** add_update_object keeps the delegate's invariant. */
  lemma AddUpdateKeepsValid(ex: Exporter, delegateId: SdfPath, st: DelegateState, ob: BObject,
                            geometry: bool, transform: bool, shading: bool)
    requires ValidState(ex, delegateId, st)
    ensures ValidState(ex, delegateId, AddUpdate(ex, delegateId, st, ob, geometry, transform, shading))
  {
    var id := ObjectId(delegateId, ob.ptr);
    if id !in st.objects {
      var st0 := if ex.primTypeOf(ob) == MESH then st.(calls := st.calls + [InsertRprim(MESH, id)])
                 else if ob.obType == OB_LAMP then st.(calls := st.calls + [InsertSprim(ex.primTypeOf(ob).token, id)])
                 else st;
      ExportKeepsValid(ex, delegateId, st, ob, st0);
    } else if geometry {
      ExportKeepsValid(ex, delegateId, st, ob, st);
      var d := NewObjectData(ex, ob);
      var st0 := if ob.obType == OB_LAMP then st.(calls := st.calls + [MarkSprimDirty(id, AllDirty)]) else st;
      ExportKeepsValid(ex, delegateId, st, ob, st0);
      var r1 := SetMaterialSpec(ex, delegateId, st, d);
      assert ValidState(ex, delegateId, r1.0.(objects := r1.0.objects[id := r1.1]));
    }
  }

  /** An instance of the depsgraph's object iterator. */
  datatype Instance = Instance(isInstance: bool, ob: BObject)

  predicate Exported(inst: Instance) { !inst.isInstance && SupportedObject(inst.ob.obType) }

  /** available_objects: ids of the supported objects that are not instances. */
  function Available(delegateId: SdfPath, instances: seq<Instance>): (r: set<SdfPath>)
    ensures forall i :: 0 <= i < |instances| && Exported(instances[i]) ==> ObjectId(delegateId, instances[i].ob.ptr) in r
    ensures forall id :: id in r ==> exists i :: 0 <= i < |instances| && Exported(instances[i]) && id == ObjectId(delegateId, instances[i].ob.ptr)
  {
    set i | 0 <= i < |instances| && Exported(instances[i]) :: ObjectId(delegateId, instances[i].ob.ptr)
  }

  /**
   * add_update_object(object, true, true, true) for each exported object
   * in iterator order; with `onlyMissing` only for those not stored yet
   * (the second loop of update_visibility).
   */
  function AddAll(ex: Exporter, delegateId: SdfPath, st: DelegateState, instances: seq<Instance>, onlyMissing: bool): (r: DelegateState)
    ensures forall k :: k in st.objects ==> k in r.objects
  {
    if instances == [] then st
    else
      var prev := AddAll(ex, delegateId, st, instances[..|instances| - 1], onlyMissing);
      var inst := instances[|instances| - 1];
      if Exported(inst) && !(onlyMissing && ObjectId(delegateId, inst.ob.ptr) in prev.objects)
      then AddUpdate(ex, delegateId, prev, inst.ob, true, true, true)
      else prev
  }

  lemma AvailableStep(delegateId: SdfPath, instances: seq<Instance>)
    requires instances != []
    ensures var inst := instances[|instances| - 1];
      Available(delegateId, instances) == Available(delegateId, instances[..|instances| - 1]) +
        (if Exported(inst) then {ObjectId(delegateId, inst.ob.ptr)} else {})
  {
    var pre := instances[..|instances| - 1];
    var inst := instances[|instances| - 1];
    var all, before := Available(delegateId, instances), Available(delegateId, pre);
    forall id | id in all
      ensures id in before || (Exported(inst) && id == ObjectId(delegateId, inst.ob.ptr))
    {
      var i :| 0 <= i < |instances| && Exported(instances[i]) && id == ObjectId(delegateId, instances[i].ob.ptr);
      if i < |pre| {
        assert pre[i] == instances[i];
      }
    }
    forall id | id in before
      ensures id in all
    {
      var i :| 0 <= i < |pre| && Exported(pre[i]) && id == ObjectId(delegateId, pre[i].ob.ptr);
      assert pre[i] == instances[i];
    }
  }

  /** Adding every exported object stores exactly those objects besides the ones already there. */
  lemma {:induction false} AddAllKeys(ex: Exporter, delegateId: SdfPath, st: DelegateState, instances: seq<Instance>, onlyMissing: bool)
    ensures AddAll(ex, delegateId, st, instances, onlyMissing).objects.Keys == st.objects.Keys + Available(delegateId, instances)
  {
    if instances != [] {
      var pre := instances[..|instances| - 1];
      AddAllKeys(ex, delegateId, st, pre, onlyMissing);
      AvailableStep(delegateId, instances);
    }
  }

  lemma {:induction false} AddAllKeepsValid(ex: Exporter, delegateId: SdfPath, st: DelegateState, instances: seq<Instance>, onlyMissing: bool)
    requires ValidState(ex, delegateId, st)
    ensures ValidState(ex, delegateId, AddAll(ex, delegateId, st, instances, onlyMissing))
  {
    if instances != [] {
      var pre := instances[..|instances| - 1];
      AddAllKeepsValid(ex, delegateId, st, pre, onlyMissing);
      AddUpdateKeepsValid(ex, delegateId, AddAll(ex, delegateId, st, pre, onlyMissing), instances[|instances| - 1].ob, true, true, true);
    }
  }

  /** The render-index call removing an object: rprim for meshes, none for empties, an sprim otherwise. */
  function RemovalCalls(id: SdfPath, d: ObjectData): seq<IndexCall>
  {
    if d.primType == MESH then [RemoveRprim(id)]
    else if d.primType != EMPTY then [RemoveSprim(d.primType.token, id)]
    else []
  }

  /** The calls removing the objects of `order`, in that order. */
  function RemovalLog(objects: map<SdfPath, ObjectData>, order: seq<SdfPath>): seq<IndexCall>
  {
    if order == [] then []
    else
      var id := order[|order| - 1];
      RemovalLog(objects, order[..|order| - 1]) + (if id in objects then RemovalCalls(id, objects[id]) else [])
  }

  lemma RemovalLogAppend(objects: map<SdfPath, ObjectData>, order: seq<SdfPath>, id: SdfPath)
    requires id in objects
    ensures RemovalLog(objects, order + [id]) == RemovalLog(objects, order) + RemovalCalls(id, objects[id])
  {
    assert (order + [id])[..|order|] == order;
  }

  /** The calls removing the materials of `order`. */
  function MaterialRemovalLog(order: seq<SdfPath>): (r: seq<IndexCall>)
    ensures |r| == |order|
  {
    if order == [] then []
    else MaterialRemovalLog(order[..|order| - 1]) + [RemoveSprim(MATERIAL_TOKEN, order[|order| - 1])]
  }

  lemma MaterialRemovalLogAppend(order: seq<SdfPath>, id: SdfPath)
    ensures MaterialRemovalLog(order + [id]) == MaterialRemovalLog(order) + [RemoveSprim(MATERIAL_TOKEN, id)]
  {
    assert (order + [id])[..|order|] == order;
  }

  /** The entries of `m` whose key is in `keep`. */
  function Restrict<V>(m: map<SdfPath, V>, keep: set<SdfPath>): (r: map<SdfPath, V>)
    ensures r.Keys == m.Keys * keep
    ensures forall k :: k in r ==> r[k] == m[k]
  {
    map k | k in m && k in keep :: m[k]
  }

  /**
   * Removal in a populated update_collection, as intended: the objects
   * not available are dropped, then the materials no remaining object
   * refers to.
   */
  function RemoveUnused(st: DelegateState, available: set<SdfPath>): (r: DelegateState)
    ensures r.objects.Keys == st.objects.Keys * available
    ensures r.materials.Keys == st.materials.Keys * Referenced(r.objects)
  {
    var objs := Restrict(st.objects, available);
    DelegateState(objs, Restrict(st.materials, Referenced(objs)), st.calls)
  }

  /** Removal keeps the invariant: no material still referred to is dropped. */
  lemma RemoveUnusedKeepsValid(ex: Exporter, delegateId: SdfPath, st: DelegateState, available: set<SdfPath>, log: seq<IndexCall>)
    requires ValidState(ex, delegateId, st)
    ensures ValidState(ex, delegateId, RemoveUnused(st, available).(calls := log))
  {
    var r := RemoveUnused(st, available);
    forall m | m in Referenced(r.objects) && m != EmptyPath
      ensures m in r.materials
    {
      var k :| k in r.objects && HasMaterialId(r.objects[k]) && r.objects[k].data[MATERIAL_ID_KEY].path == m;
      assert m in Referenced(st.objects);
    }
  }

  /**
   * The removal loops as written: after an erase the iterator restarts at
   * begin() and is then advanced, so the entry that became first is not
   * examined; erasing the last entry leaves begin() == end(), and
   * advancing end() is undefined (None). `keys` is the map in iteration
   * order and `i` the iterator's position.
   */
  function EraseScan(keys: seq<SdfPath>, keep: set<SdfPath>, i: nat): (r: Option<seq<SdfPath>>)
    decreases |keys|, |keys| - i
  {
    if i >= |keys| then Some(keys)
    else if keys[i] in keep then EraseScan(keys, keep, i + 1)
    else
      var rest := keys[..i] + keys[i + 1..];
      if rest == [] then None else EraseScan(rest, keep, 1)
  }

  /** The scan as written never drops a kept key and adds none. */
  lemma {:induction false} EraseScanKeeps(keys: seq<SdfPath>, keep: set<SdfPath>, i: nat)
    requires EraseScan(keys, keep, i).Some?
    ensures forall k :: k in EraseScan(keys, keep, i).value ==> k in keys
    ensures forall k :: k in keys && k in keep ==> k in EraseScan(keys, keep, i).value
    decreases |keys|, |keys| - i
  {
    if i < |keys| {
      if keys[i] in keep {
        EraseScanKeeps(keys, keep, i + 1);
      } else {
        var rest := keys[..i] + keys[i + 1..];
        assert forall k :: k in keys && k != keys[i] ==> k in rest by {
          forall k | k in keys && k != keys[i]
            ensures k in rest
          {
            var j :| 0 <= j < |keys| && keys[j] == k;
            if j < i { assert rest[j] == k; } else { assert rest[j - 1] == k; }
          }
        }
        EraseScanKeeps(rest, keep, 1);
      }
    }
  }

  /** Two entries, neither available: the first is erased, the second survives the scan. */
  lemma EraseScanSkipsSecond(a: SdfPath, b: SdfPath)
    requires a != b
    ensures EraseScan([a, b], {}, 0) == Some([b])
  {
    assert [a, b][..0] + [a, b][1..] == [b];
  }

  /** One entry, not available: erasing it leaves an empty map whose end() is then advanced. */
  lemma EraseScanPastEnd(a: SdfPath)
    ensures EraseScan([a], {}, 0).None?
  {
    assert [a][..0] + [a][1..] == [];
  }

  /** The intended removal drops exactly the unavailable entries. */
  lemma RemoveUnusedExact(st: DelegateState, available: set<SdfPath>, id: SdfPath)
    requires id in st.objects
    ensures id in RemoveUnused(st, available).objects <==> id in available
    ensures id in available ==> RemoveUnused(st, available).objects[id] == st.objects[id]
  {
  }

  /** The dirty mark for an object whose visibility changed. */
  function VisibilityCalls(id: SdfPath, d: ObjectData): seq<IndexCall>
  {
    if d.primType == MESH then [MarkRprimDirty(id, DirtyVisibility)]
    else if d.ob.obType == OB_LAMP then [MarkSprimDirty(id, DirtyParams)]
    else []
  }

  lemma VisibilityLogAppend(objects: map<SdfPath, ObjectData>, order: seq<SdfPath>, id: SdfPath)
    requires id in objects
    ensures VisibilityLog(objects, order + [id]) == VisibilityLog(objects, order) + VisibilityCalls(id, objects[id])
  {
    assert (order + [id])[..|order|] == order;
  }

  function VisibilityLog(objects: map<SdfPath, ObjectData>, order: seq<SdfPath>): seq<IndexCall>
  {
    if order == [] then []
    else
      var id := order[|order| - 1];
      VisibilityLog(objects, order[..|order| - 1]) + (if id in objects then VisibilityCalls(id, objects[id]) else [])
  }
}
