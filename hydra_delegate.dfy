/**
 * BlenderSceneDelegate: the Hydra scene delegate exporting a Blender
 * depsgraph. Its objects and materials maps, its world and its populated
 * flag are fields updated in place; the render index it talks to is the
 * log of calls made on it.
 */
module HydraDelegate {
  import opened Wrappers
  import opened HydraIds
  import opened HydraState

  /** WorldData as far as add_world compares it: shading, world, context; and how often it was updated. */
  datatype WorldData = WorldData(shading: nat, world: nat, context: nat, updates: nat)

  /** The datablock a depsgraph update names. */
  datatype IdRef = ObjectRef(ob: BObject) | MaterialRef(material: Pointer) | CollectionRef | SceneRef | WorldRef | NodeTreeRef | OtherRef

  datatype Update = Update(id: IdRef, transform: bool, geometry: bool, shading: bool)

  predicate CollectionChange(u: Update) { u.id.CollectionRef? && u.transform && u.geometry }
  predicate VisibilityChange(u: Update) { u.id.SceneRef? && !u.geometry && !u.transform && !u.shading }

  predicate Distinct(order: seq<SdfPath>)
  {
    forall i, j :: 0 <= i < j < |order| ==> order[i] != order[j]
  }

  /**
   * A loop draining the hash set `all` one element at a time: `order` is
   * the visit order so far and `todo` what is left; together they hold
   * each element of `all` exactly once.
   */
  ghost predicate Drained(all: set<SdfPath>, todo: set<SdfPath>, order: seq<SdfPath>)
  {
    todo <= all && multiset(order) + multiset(todo) == multiset(all)
  }

  lemma DrainStep(all: set<SdfPath>, todo: set<SdfPath>, order: seq<SdfPath>, id: SdfPath)
    requires Drained(all, todo, order) && id in todo
    ensures Drained(all, todo - {id}, order + [id])
  {
    assert multiset(todo) == multiset(todo - {id}) + multiset{id};
  }

  lemma ConcatAssoc<T>(a: seq<T>, b: seq<T>, c: seq<T>)
    ensures (a + b) + c == a + (b + c)
  {
  }

  /** An element at two positions is counted twice. */
  lemma CountTwice(order: seq<SdfPath>, i: int, j: int)
    requires 0 <= i < j < |order| && order[i] == order[j]
    ensures multiset(order)[order[i]] >= 2
  {
    var x := order[i];
    assert order == order[..j] + [x] + order[j + 1..];
    assert x in order[..j];
  }

  lemma DrainDone(all: set<SdfPath>, order: seq<SdfPath>)
    requires Drained(all, {}, order)
    ensures Distinct(order) && forall id :: id in order <==> id in all
    ensures forall i :: 0 <= i < |order| ==> order[i] in all
  {
    assert multiset(order) == multiset(all);
    forall i, j | 0 <= i < j < |order|
      ensures order[i] != order[j]
    {
      if order[i] == order[j] {
        CountTwice(order, i, j);
      }
    }
    forall id
      ensures id in order <==> id in all
    {
      assert id in order <==> id in multiset(order);
    }
  }

  /**
   * The loop over the objects of update_collection that are not
   * available, in hash-set order: each one's removal from the render
   * index is logged.
   */
  method RemovalPass(objects: map<SdfPath, ObjectData>, available: set<SdfPath>, log0: seq<IndexCall>)
    returns (log: seq<IndexCall>, ghost order: seq<SdfPath>)
    ensures Drained(objects.Keys - available, {}, order)
    ensures log == log0 + RemovalLog(objects, order)
  {
    log := log0;
    ghost var all := objects.Keys - available;
    var todo := objects.Keys - available;
    order := [];
    while todo != {}
      invariant Drained(all, todo, order)
      invariant log == log0 + RemovalLog(objects, order)
      decreases |todo|
    {
      var id :| id in todo;
      DrainStep(all, todo, order, id);
      RemovalLogAppend(objects, order, id);
      var d := objects[id];
      var c := [];
      if d.primType == MESH {
        c := [RemoveRprim(id)];
      } else if d.primType != EMPTY {
        c := [RemoveSprim(d.primType.token, id)];
      }
      ConcatAssoc(log0, RemovalLog(objects, order), c);
      log := log + c;
      todo := todo - {id};
      order := order + [id];
    }
  }

  /**
   * The loop over the materials of update_collection that no remaining
   * object references, in hash-set order: each one's removal from the
   * render index is logged.
   */
  method MaterialRemovalPass(unused: set<SdfPath>, log0: seq<IndexCall>)
    returns (log: seq<IndexCall>, ghost order: seq<SdfPath>)
    ensures Drained(unused, {}, order)
    ensures log == log0 + MaterialRemovalLog(order)
  {
    log := log0;
    var todo := unused;
    order := [];
    while todo != {}
      invariant Drained(unused, todo, order)
      invariant log == log0 + MaterialRemovalLog(order)
      decreases |todo|
    {
      var id :| id in todo;
      DrainStep(unused, todo, order, id);
      MaterialRemovalLogAppend(order, id);
      var c := [RemoveSprim(MATERIAL_TOKEN, id)];
      ConcatAssoc(log0, MaterialRemovalLog(order), c);
      log := log + c;
      todo := todo - {id};
      order := order + [id];
    }
  }

  class BlenderSceneDelegate {
    const delegateId: SdfPath
    const exporter: Exporter
    var objects: map<SdfPath, ObjectData>
    var materials: map<SdfPath, MaterialData>
    var isPopulated: bool
    var worldData: WorldData
    var context: nat
    var calls: seq<IndexCall>

    function Snapshot(): DelegateState
      reads this
    {
      DelegateState(objects, materials, calls)
    }

    ghost predicate Valid()
      reads this
    {
      ValidState(exporter, delegateId, Snapshot())
    }

    constructor(delegateId: SdfPath, exporter: Exporter)
      requires ExporterOk(exporter)
      ensures Valid() && !isPopulated
      ensures this.delegateId == delegateId && this.exporter == exporter
      ensures objects == map[] && materials == map[] && calls == []
      ensures worldData == WorldData(0, 0, 0, 0) && context == 0
    {
      this.delegateId := delegateId;
      this.exporter := exporter;
      objects := map[];
      materials := map[];
      isPopulated := false;
      worldData := WorldData(0, 0, 0, 0);
      context := 0;
      calls := [];
    }

    /** set_material: gives the object its material's id, exporting the material the first time. */
    method SetMaterial(d: ObjectData) returns (r: ObjectData)
      modifies this`materials, this`calls
      ensures (Snapshot(), r) == SetMaterialSpec(exporter, delegateId, old(Snapshot()), d)
    {
      if d.ob.material.None? {
        r := d.(data := d.data[MATERIAL_ID_KEY := PathValue(EmptyPath)]);
        return;
      }
      var id := MaterialId(delegateId, d.ob.material.value);
      if id !in materials {
        var md := MaterialData(d.ob.material.value, "", 0);
        calls := calls + [InsertSprim(MATERIAL_TOKEN, id)];
        md := ExportMtlx(exporter, md);
        materials := materials[id := md];
      }
      r := d.(data := d.data[MATERIAL_ID_KEY := PathValue(id)]);
    }

    /** update_material: re-exports a known material and marks it dirty; an unknown one is ignored. */
    method UpdateMaterial(m: Pointer)
      requires Valid()
      modifies this`materials, this`calls
      ensures Valid()
      ensures var id := MaterialId(delegateId, m);
        if id in old(materials) then
          materials == old(materials)[id := ExportMtlx(exporter, old(materials)[id])] &&
          calls == old(calls) + [MarkSprimDirty(id, AllDirty)]
        else materials == old(materials) && calls == old(calls)
    {
      var id := MaterialId(delegateId, m);
      if id in materials {
        materials := materials[id := ExportMtlx(exporter, materials[id])];
        calls := calls + [MarkSprimDirty(id, AllDirty)];
      }
    }

    /**
     * add_world: a new shading, world or context replaces the world data
     * and inserts the dome light; otherwise the world is updated and the
     * dome light marked dirty.
     */
    method AddWorld(shading: Pointer, world: nat)
      modifies this`worldData, this`calls
      ensures var id := WorldId(delegateId, shading);
        if old(worldData).shading != shading || old(worldData).world != world || old(worldData).context != context then
          worldData == WorldData(shading, world, context, 0) && calls == old(calls) + [InsertSprim(DOME_LIGHT_TOKEN, id)]
        else
          worldData == old(worldData).(updates := old(worldData).updates + 1) && calls == old(calls) + [MarkSprimDirty(id, AllDirty)]
    {
      var id := WorldId(delegateId, shading);
      if worldData.shading != shading || worldData.world != world || worldData.context != context {
        worldData := WorldData(shading, world, context, 0);
        calls := calls + [InsertSprim(DOME_LIGHT_TOKEN, id)];
      } else {
        worldData := worldData.(updates := worldData.updates + 1);
        calls := calls + [MarkSprimDirty(id, AllDirty)];
      }
    }

    /** The branch of add_update_object for an object not exported yet. */
    method AddNewObject(ob: BObject)
      modifies this`objects, this`materials, this`calls
      ensures Snapshot() == AddNew(exporter, delegateId, old(Snapshot()), ob)
    {
      var id := ObjectId(delegateId, ob.ptr);
      var d := NewObjectData(exporter, ob);
      if d.primType == MESH {
        calls := calls + [InsertRprim(d.primType, id)];
        d := SetMaterial(d);
      } else if ob.obType == OB_LAMP {
        calls := calls + [InsertSprim(d.primType.token, id)];
      }
      objects := objects[id := d];
    }

    /** The branch of add_update_object for a known object whose geometry changed. */
    method ReplaceObject(ob: BObject)
      modifies this`objects, this`materials, this`calls
      ensures Snapshot() == Replace(exporter, delegateId, old(Snapshot()), ob)
    {
      var id := ObjectId(delegateId, ob.ptr);
      var d := NewObjectData(exporter, ob);
      if d.primType == MESH {
        d := SetMaterial(d);
        calls := calls + [MarkRprimDirty(id, AllDirty)];
      } else if ob.obType == OB_LAMP {
        calls := calls + [MarkSprimDirty(id, AllDirty)];
      }
      objects := objects[id := d];
    }

    /** The branch of add_update_object marking a known object dirty. */
    method MarkObject(id: SdfPath, transform: bool, shading: bool)
      requires id in objects
      modifies this`calls
      ensures calls == old(calls) + MarkCalls(id, objects[id], transform, shading)
    {
      var stored := objects[id];
      if transform {
        if stored.primType == MESH {
          calls := calls + [MarkRprimDirty(id, DirtyTransform)];
        } else if stored.ob.obType == OB_LAMP {
          calls := calls + [MarkSprimDirty(id, DirtyTransform)];
        }
      }
      if shading {
        if stored.primType == MESH {
          calls := calls + [MarkRprimDirty(id, DirtyMaterialId)];
        }
      }
    }

    /** add_update_object. */
    method AddUpdateObject(ob: BObject, geometry: bool, transform: bool, shading: bool)
      requires Valid()
      modifies this`objects, this`materials, this`calls
      ensures Valid()
      ensures Snapshot() == AddUpdate(exporter, delegateId, old(Snapshot()), ob, geometry, transform, shading)
    {
      AddUpdateKeepsValid(exporter, delegateId, Snapshot(), ob, geometry, transform, shading);
      var id := ObjectId(delegateId, ob.ptr);
      if id !in objects {
        AddNewObject(ob);
        return;
      }
      if geometry {
        ReplaceObject(ob);
        return;
      }
      MarkObject(id, transform, shading);
    }

    /**
     * One step of the first loop of update_collection: whether the object
     * is available, and, while not populated, its export.
     */
    method AddIfAvailable(inst: Instance) returns (exported: bool)
      requires Valid()
      modifies this`objects, this`materials, this`calls
      ensures Valid()
      ensures exported == Exported(inst)
      ensures Snapshot() == if exported && !isPopulated
        then AddUpdate(exporter, delegateId, old(Snapshot()), inst.ob, true, true, true)
        else old(Snapshot())
    {
      exported := !inst.isInstance && SupportedObject(inst.ob.obType);
      if exported && !isPopulated {
        AddUpdateObject(inst.ob, true, true, true);
      }
    }

    /**
     * The first loop of update_collection: collects the available objects
     * and, while not populated, adds each of them.
     */
    method AddAvailable(instances: seq<Instance>) returns (available: set<SdfPath>)
      requires Valid()
      modifies this`objects, this`materials, this`calls
      ensures Valid()
      ensures available == Available(delegateId, instances)
      ensures !isPopulated ==> Snapshot() == AddAll(exporter, delegateId, old(Snapshot()), instances, false)
      ensures isPopulated ==> Snapshot() == old(Snapshot())
    {
      available := {};
      var i := 0;
      while i < |instances|
        invariant 0 <= i <= |instances|
        invariant Valid()
        invariant available == Available(delegateId, instances[..i])
        invariant !isPopulated ==> Snapshot() == AddAll(exporter, delegateId, old(Snapshot()), instances[..i], false)
        invariant isPopulated ==> Snapshot() == old(Snapshot())
      {
        assert instances[..i + 1][..i] == instances[..i];
        AvailableStep(delegateId, instances[..i + 1]);
        var exported := AddIfAvailable(instances[i]);
        if exported {
          available := available + {ObjectId(delegateId, instances[i].ob.ptr)};
        }
        i := i + 1;
      }
      assert instances[..i] == instances;
    }

    /**
     * The object removal of update_collection, as intended: every object
     * not available is visited, its removal logged, and it leaves the map.
     */
    method RemoveObjects(available: set<SdfPath>) returns (ghost order: seq<SdfPath>)
      modifies this`objects, this`calls
      ensures objects == Restrict(old(objects), available)
      ensures Distinct(order) && forall id :: id in order <==> id in old(objects) && id !in available
      ensures forall i :: 0 <= i < |order| ==> order[i] in old(objects)
      ensures calls == old(calls) + RemovalLog(old(objects), order)
    {
      var log;
      log, order := RemovalPass(objects, available, calls);
      DrainDone(objects.Keys - available, order);
      objects, calls := Restrict(objects, available), log;
    }

    /** available_materials: the material ids the remaining objects carry. */
    method CollectReferenced() returns (referenced: set<SdfPath>)
      ensures referenced == Referenced(objects)
    {
      referenced := {};
      var todo := objects.Keys;
      while todo != {}
        invariant todo <= objects.Keys
        invariant forall m :: m in referenced <==>
          exists id :: id in objects && id !in todo && HasMaterialId(objects[id]) && objects[id].data[MATERIAL_ID_KEY].path == m
        decreases |todo|
      {
        var id :| id in todo;
        if HasMaterialId(objects[id]) {
          referenced := referenced + {objects[id].data[MATERIAL_ID_KEY].path};
        }
        todo := todo - {id};
      }
    }

    /** The material removal loop of update_collection, as intended. */
    method RemoveMaterials(referenced: set<SdfPath>) returns (ghost order: seq<SdfPath>)
      modifies this`materials, this`calls
      ensures materials == Restrict(old(materials), referenced)
      ensures Distinct(order) && forall id :: id in order <==> id in old(materials) && id !in referenced
      ensures calls == old(calls) + MaterialRemovalLog(order)
    {
      var log;
      log, order := MaterialRemovalPass(materials.Keys - referenced, calls);
      DrainDone(materials.Keys - referenced, order);
      materials, calls := Restrict(materials, referenced), log;
    }

    /**
     * update_collection. Not yet populated: every available object is
     * added and nothing is removed. Populated: objects no longer available
     * are removed, then the materials no remaining object refers to.
     */
    method UpdateCollection(instances: seq<Instance>) returns (ghost removedObjects: seq<SdfPath>, ghost removedMaterials: seq<SdfPath>)
      requires Valid()
      modifies this`objects, this`materials, this`calls
      ensures Valid()
      ensures !isPopulated ==>
        Snapshot() == AddAll(exporter, delegateId, old(Snapshot()), instances, false) &&
        objects.Keys == old(objects).Keys + Available(delegateId, instances)
      ensures isPopulated ==>
        var kept := RemoveUnused(old(Snapshot()), Available(delegateId, instances));
        && objects == kept.objects && materials == kept.materials
        && Distinct(removedObjects)
        && (forall id :: id in removedObjects <==> id in old(objects) && id !in Available(delegateId, instances))
        && Distinct(removedMaterials)
        && (forall id :: id in removedMaterials <==> id in old(materials) && id !in Referenced(objects))
        && (forall i :: 0 <= i < |removedObjects| ==> removedObjects[i] in old(objects))
        && calls == old(calls) + RemovalLog(old(objects), removedObjects) + MaterialRemovalLog(removedMaterials)
    {
      removedObjects, removedMaterials := [], [];
      var available := AddAvailable(instances);
      if !isPopulated {
        AddAllKeys(exporter, delegateId, old(Snapshot()), instances, false);
        return;
      }
      ghost var st0 := Snapshot();
      removedObjects := RemoveObjects(available);
      var referenced := CollectReferenced();
      removedMaterials := RemoveMaterials(referenced);
      RemoveUnusedKeepsValid(exporter, delegateId, st0, available, calls);
    }

    /** The first loop of update_visibility: dirty marks for objects whose visibility changed. */
    method MarkVisibility(changed: set<SdfPath>) returns (ghost order: seq<SdfPath>)
      modifies this`calls
      ensures Distinct(order) && forall id :: id in order <==> id in objects && id in changed
      ensures forall i :: 0 <= i < |order| ==> order[i] in objects
      ensures calls == old(calls) + VisibilityLog(objects, order)
    {
      var objs, log := objects, calls;
      ghost var all := objs.Keys * changed;
      var todo := objs.Keys * changed;
      order := [];
      while todo != {}
        invariant Drained(all, todo, order)
        invariant log == old(calls) + VisibilityLog(objs, order)
        decreases |todo|
      {
        var id :| id in todo;
        DrainStep(all, todo, order, id);
        VisibilityLogAppend(objs, order, id);
        var d := objs[id];
        var c := [];
        if d.primType == MESH {
          c := [MarkRprimDirty(id, DirtyVisibility)];
        } else if d.ob.obType == OB_LAMP {
          c := [MarkSprimDirty(id, DirtyParams)];
        }
        ConcatAssoc(old(calls), VisibilityLog(objs, order), c);
        log := log + c;
        todo := todo - {id};
        order := order + [id];
      }
      DrainDone(all, order);
      calls := log;
    }

    /** One step of the second loop of update_visibility: export the object unless it is stored already. */
    method AddIfMissing(inst: Instance)
      requires Valid()
      modifies this`objects, this`materials, this`calls
      ensures Valid()
      ensures Snapshot() == if Exported(inst) && ObjectId(delegateId, inst.ob.ptr) !in old(objects)
        then AddUpdate(exporter, delegateId, old(Snapshot()), inst.ob, true, true, true)
        else old(Snapshot())
    {
      if !inst.isInstance && SupportedObject(inst.ob.obType) {
        if ObjectId(delegateId, inst.ob.ptr) !in objects {
          AddUpdateObject(inst.ob, true, true, true);
        }
      }
    }

    /** The second loop of update_visibility: export the available objects not exported yet. */
    method AddMissing(instances: seq<Instance>)
      requires Valid()
      modifies this`objects, this`materials, this`calls
      ensures Valid()
      ensures Snapshot() == AddAll(exporter, delegateId, old(Snapshot()), instances, true)
      ensures objects.Keys == old(objects).Keys + Available(delegateId, instances)
    {
      var i := 0;
      while i < |instances|
        invariant 0 <= i <= |instances|
        invariant Valid()
        invariant Snapshot() == AddAll(exporter, delegateId, old(Snapshot()), instances[..i], true)
      {
        assert instances[..i + 1][..i] == instances[..i];
        AddIfMissing(instances[i]);
        i := i + 1;
      }
      assert instances[..i] == instances;
      AddAllKeys(exporter, delegateId, old(Snapshot()), instances, true);
    }

    /**
     * update_visibility: objects whose visibility changed are marked
     * dirty, then available objects not exported yet are added.
     */
    method UpdateVisibility(instances: seq<Instance>, changed: set<SdfPath>) returns (ghost order: seq<SdfPath>)
      requires Valid()
      modifies this`objects, this`materials, this`calls
      ensures Valid()
      ensures Distinct(order) && forall id :: id in order <==> id in old(objects) && id in changed
      ensures forall i :: 0 <= i < |order| ==> order[i] in old(objects)
      ensures Snapshot() == AddAll(exporter, delegateId,
        old(Snapshot()).(calls := old(calls) + VisibilityLog(old(objects), order)), instances, true)
      ensures objects.Keys == old(objects).Keys + Available(delegateId, instances)
    {
      order := MarkVisibility(changed);
      AddMissing(instances);
    }

    /** One depsgraph update of Populate, dispatched by the kind of datablock it names. */
    method DispatchOne(u: Update, shading: Pointer, world: nat) returns (collection: bool, visibility: bool)
      requires Valid()
      modifies this`objects, this`materials, this`calls, this`worldData
      ensures Valid()
      ensures collection <==> CollectionChange(u)
      ensures visibility <==> VisibilityChange(u)
      ensures u.id.ObjectRef? ==>
        worldData == old(worldData) &&
        Snapshot() == if SupportedObject(u.id.ob.obType)
          then AddUpdate(exporter, delegateId, old(Snapshot()), u.id.ob, u.geometry, u.transform, u.shading)
          else old(Snapshot())
      ensures u.id.MaterialRef? ==>
        worldData == old(worldData) && objects == old(objects) &&
        (!u.shading || MaterialId(delegateId, u.id.material) !in old(materials) ==> Snapshot() == old(Snapshot()))
      ensures u.id.MaterialRef? && u.shading && MaterialId(delegateId, u.id.material) in old(materials) ==>
        var id := MaterialId(delegateId, u.id.material);
        materials == old(materials)[id := ExportMtlx(exporter, old(materials)[id])] &&
        calls == old(calls) + [MarkSprimDirty(id, AllDirty)]
      ensures u.id.CollectionRef? || u.id.SceneRef? || u.id.OtherRef? ==>
        worldData == old(worldData) && Snapshot() == old(Snapshot())
      ensures u.id.WorldRef? || u.id.NodeTreeRef? ==>
        objects == old(objects) && materials == old(materials) &&
        |calls| == |old(calls)| + 1 && calls[..|old(calls)|] == old(calls)
      ensures u.id.WorldRef? || u.id.NodeTreeRef? ==>
        var id := WorldId(delegateId, shading);
        if old(worldData).shading != shading || old(worldData).world != world || old(worldData).context != context then
          worldData == WorldData(shading, world, context, 0) && calls == old(calls) + [InsertSprim(DOME_LIGHT_TOKEN, id)]
        else
          worldData == old(worldData).(updates := old(worldData).updates + 1) && calls == old(calls) + [MarkSprimDirty(id, AllDirty)]
      ensures old(objects).Keys <= objects.Keys && old(materials).Keys <= materials.Keys
      ensures |old(calls)| <= |calls| && calls[..|old(calls)|] == old(calls)
    {
      collection, visibility := false, false;
      match u.id {
        case ObjectRef(ob) =>
          if SupportedObject(ob.obType) {
            AddUpdateObject(ob, u.geometry, u.transform, u.shading);
          }
        case MaterialRef(m) =>
          if u.shading {
            UpdateMaterial(m);
          }
        case CollectionRef =>
          if u.transform && u.geometry {
            collection := true;
          }
        case SceneRef =>
          if !u.geometry && !u.transform && !u.shading {
            visibility := true;
          }
        case WorldRef =>
          AddWorld(shading, world);
        case NodeTreeRef =>
          AddWorld(shading, world);
        case OtherRef =>
      }
    }

    /** The update loop of Populate: whether some update asks for update_collection or update_visibility. */
    method DispatchUpdates(updates: seq<Update>, shading: Pointer, world: nat)
      returns (doCollection: bool, doVisibility: bool)
      requires Valid()
      modifies this`objects, this`materials, this`calls, this`worldData
      ensures Valid()
      ensures doCollection <==> exists k :: 0 <= k < |updates| && CollectionChange(updates[k])
      ensures doVisibility <==> exists k :: 0 <= k < |updates| && VisibilityChange(updates[k])
      ensures old(objects).Keys <= objects.Keys && old(materials).Keys <= materials.Keys
      ensures |old(calls)| <= |calls| && calls[..|old(calls)|] == old(calls)
    {
      doCollection, doVisibility := false, false;
      var i := 0;
      while i < |updates|
        invariant 0 <= i <= |updates|
        invariant Valid()
        invariant doCollection <==> exists k :: 0 <= k < i && CollectionChange(updates[k])
        invariant doVisibility <==> exists k :: 0 <= k < i && VisibilityChange(updates[k])
        invariant old(objects).Keys <= objects.Keys && old(materials).Keys <= materials.Keys
        invariant |old(calls)| <= |calls| && calls[..|old(calls)|] == old(calls)
      {
        var c, v := DispatchOne(updates[i], shading, world);
        doCollection, doVisibility := doCollection || c, doVisibility || v;
        i := i + 1;
      }
    }

    /**
     * Populate. The first call exports the available objects and the
     * world and marks the delegate populated; later calls apply the
     * depsgraph updates, re-run update_collection when some collection
     * changed both transform and geometry, and update_visibility when the
     * scene changed with no flag set.
     */
    method Populate(instances: seq<Instance>, updates: seq<Update>, shading: Pointer, world: nat, ctx: nat,
                    visibilityChanged: set<SdfPath>)
      returns (ghost doCollection: bool, ghost doVisibility: bool)
      requires Valid()
      modifies this`objects, this`materials, this`calls, this`worldData, this`context, this`isPopulated
      ensures Valid() && isPopulated && context == ctx
      ensures !old(isPopulated) ==>
        var added := AddAll(exporter, delegateId, old(Snapshot()), instances, false);
        && objects == added.objects && materials == added.materials
        && objects.Keys == old(objects).Keys + Available(delegateId, instances)
        && |calls| == |added.calls| + 1 && calls[..|added.calls|] == added.calls
        && (worldData.shading, worldData.world, worldData.context) == (shading, world, ctx)
      ensures !old(isPopulated) ==>
        var id := WorldId(delegateId, shading);
        if old(worldData).shading != shading || old(worldData).world != world || old(worldData).context != ctx then
          worldData == WorldData(shading, world, ctx, 0) && calls[|calls| - 1] == InsertSprim(DOME_LIGHT_TOKEN, id)
        else
          worldData == old(worldData).(updates := old(worldData).updates + 1) && calls[|calls| - 1] == MarkSprimDirty(id, AllDirty)
      ensures old(isPopulated) ==>
        && (doCollection <==> exists k :: 0 <= k < |updates| && CollectionChange(updates[k]))
        && (doVisibility <==> exists k :: 0 <= k < |updates| && VisibilityChange(updates[k]))
        && (doCollection ==> objects.Keys <= Available(delegateId, instances))
        && (doVisibility ==> Available(delegateId, instances) <= objects.Keys)
    {
      context := ctx;
      if !isPopulated {
        doCollection, doVisibility := false, false;
        var _, _ := UpdateCollection(instances);
        ghost var added := Snapshot();
        AddWorld(shading, world);
        assert calls[..|added.calls|] == added.calls;
        isPopulated := true;
        return;
      }
      var c, v := DispatchUpdates(updates, shading, world);
      doCollection, doVisibility := c, v;
      if c {
        var _, _ := UpdateCollection(instances);
      }
      if v {
        var _ := UpdateVisibility(instances, visibilityChanged);
      }
    }

    /**
     * Get: an exported object's data under `key`, if any. For another id,
     * the MaterialX file of the material stored under it (the map lookup
     * stores an empty material when there is none), or the constant MSAA
     * sample count.
     */
    method Get(id: SdfPath, key: string) returns (v: Option<Value>)
      requires Valid()
      modifies this`materials
      ensures Valid()
      ensures id in objects ==>
        (materials == old(materials) && v == (if key in objects[id].data then Some(objects[id].data[key]) else None))
      ensures id !in objects && key == "MaterialXFilename" ==>
        && materials == (if id in old(materials) then old(materials) else old(materials)[id := MaterialData(0, "", 0)])
        && v == (if materials[id].mtlxPath != "" then Some(AssetValue(materials[id].mtlxPath)) else None)
      ensures id !in objects && key != "MaterialXFilename" ==>
        materials == old(materials) && v == (if key == "stormMsaaSampleCount" then Some(IntValue(16)) else None)
    {
      v := None;
      if id in objects {
        if key in objects[id].data {
          v := Some(objects[id].data[key]);
        }
      } else if key == "MaterialXFilename" {
        if id !in materials {
          materials := materials[id := MaterialData(0, "", 0)];
        }
        if materials[id].mtlxPath != "" {
          v := Some(AssetValue(materials[id].mtlxPath));
        }
      } else if key == "stormMsaaSampleCount" {
        v := Some(IntValue(16));
      }
    }

    /** GetMaterialId: the material id an exported object carries, else the empty path. */
    function GetMaterialId(rprimId: SdfPath): (p: SdfPath)
      reads this
      ensures p != EmptyPath ==> rprimId in objects && HasMaterialId(objects[rprimId]) && p in Referenced(objects)
      ensures Valid() && p != EmptyPath ==> p in materials
      ensures rprimId in objects && HasMaterialId(objects[rprimId]) ==> p == objects[rprimId].data[MATERIAL_ID_KEY].path
    {
      if rprimId in objects && HasMaterialId(objects[rprimId]) then objects[rprimId].data[MATERIAL_ID_KEY].path
      else EmptyPath
    }
  }
}
