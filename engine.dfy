/**
 * The older, pointer-and-error-code engine: `selector`, `object_handle`,
 * `camera` and `engine`, each holding raw pointers to library objects and
 * filling them in step by step. Every library call is an input of the method
 * that makes it (the object it returned, or null). The ownership defects of
 * this code are modelled as they are and shown by the contracts and by the
 * scenarios at the end.
 */
module LegacyEngine {
  import opened Wrappers
  import opened Counters
  import opened Native
  import opened Events
  import opened Picking

  const SelectorInitFail: int := 0
  const SelectorInitSuccess: int := 1

  // object_handle::type
  const TypeUnknown: int := -2
  const TypeInvalid: int := -1
  const TypeFaerie: int := 0
  const TypeNinja: int := 1
  const TypeDwarf: int := 2
  const TypeYodan: int := 3
  const TypeNum: int := 4

  // engine::device_type
  const DeviceInvalid: int := -1
  const DeviceNull: int := 0
  const DeviceSoftware: int := 1
  const DeviceD3d9: int := 2
  const DeviceOpengl: int := 3
  const DeviceNum: int := 4

  /** The library's driver types the engine can ask for. */
  datatype DriverType = EdtNull | EdtSoftware | EdtDirect3D9 | EdtOpenGL

  /** The `device_type` a driver type stands for. */
  function DeviceTypeOf(d: DriverType): (t: int)
    ensures 0 <= t < DeviceNum
  {
    match d
    case EdtNull => DeviceNull
    case EdtSoftware => DeviceSoftware
    case EdtDirect3D9 => DeviceD3d9
    case EdtOpenGL => DeviceOpengl
  }

  /** `convert`: table lookup, defined for the four valid device types only. */
  function Convert(t: int): (d: DriverType)
    requires 0 <= t < DeviceNum
    ensures DeviceTypeOf(d) == t
  {
    [EdtNull, EdtSoftware, EdtDirect3D9, EdtOpenGL][t]
  }

  /** `convert` is a bijection between the valid device types and the driver types. */
  lemma ConvertIsBijection(d: DriverType, t: int, u: int)
    ensures Convert(DeviceTypeOf(d)) == d
    ensures 0 <= t < DeviceNum && 0 <= u < DeviceNum && Convert(t) == Convert(u) ==> t == u
  {
  }

  /** Connects an object's node to the collision system through a triangle selector. */
  class Selector {
    const counters: TypeCounters
    var resource: Resource?

    constructor (counters: TypeCounters)
      requires counters.Valid()
      modifies counters.registry
      ensures this.counters == counters && resource == null
      ensures Recorded(counters, Constructions)
    {
      this.counters := counters;
      resource := null;
      new;
      counters.Construct();
    }

    /**
     * `init`: keeps what `createTriangleSelector` returned for the object's
     * node (`made`) and reports whether there was one.
     */
    method Init(handle: ObjectHandle, made: Resource?) returns (status: int)
      requires resource == null && handle.resource != null
      modifies this`resource
      ensures resource == made
      ensures status == (if made == null then SelectorInitFail else SelectorInitSuccess)
    {
      resource := made;
      if resource == null {
        return SelectorInitFail;
      }
      return SelectorInitSuccess;
    }

    /** `destroy`: drops the selector once and forgets it. */
    method Destroy()
      requires resource != null
      modifies this`resource, resource`drops
      ensures resource == null
      ensures old(resource).drops == old(resource.drops) + 1
    {
      resource.Drop();
      resource := null;
    }

    /** `~selector`: destroys the selector only if one is held. */
    method Finalize()
      requires counters.Valid()
      modifies this`resource, (if resource == null then {} else {resource as Resource})`drops, counters.registry
      ensures resource == null
      ensures old(resource) != null ==> old(resource).drops == old(resource.drops) + 1
      ensures Recorded(counters, Destructions)
    {
      if resource != null {
        Destroy();
      }
      counters.Destruct();
    }
  }

  /** A character node: created from assets, or observing a node found by picking. */
  class ObjectHandle {
    const counters: TypeCounters
    var kind: int
    var name: Option<string>
    var resource: Resource?

    constructor (counters: TypeCounters, t: int, name: Option<string>)
      requires counters.Valid()
      modifies counters.registry
      ensures this.counters == counters && kind == t && this.name == name && resource == null
      ensures Recorded(counters, Constructions)
    {
      this.counters := counters;
      kind := t;
      this.name := name;
      resource := null;
      new;
      counters.Construct();
    }

    /**
     * `resource_set(engine*)` reduced to its control flow: `meshFound` is
     * whether `getMesh` succeeded, `node` what `addAnimatedMeshSceneNode`
     * returned (used unchecked), `textureFound` whether the faerie's texture
     * loaded. A missing texture forgets the node without dropping it.
     */
    method ResourceSetFromAssets(meshFound: bool, node: Resource, textureFound: bool) returns (ok: bool)
      requires resource == null
      requires kind == TypeUnknown || TypeFaerie <= kind < TypeNum
      modifies this`resource
      ensures kind == TypeUnknown ==> ok && resource == null
      ensures kind != TypeUnknown && !meshFound ==> !ok && resource == null
      ensures kind == TypeFaerie && meshFound && !textureFound ==> !ok && resource == null && node.drops == old(node.drops)
      ensures kind == TypeFaerie && meshFound && textureFound ==> ok && resource == node
      ensures TypeNinja <= kind < TypeNum && meshFound ==> ok && resource == node
    {
      if kind == TypeUnknown {
        return true;
      }
      if !meshFound {
        return false;
      }
      resource := node;
      if kind == TypeFaerie && !textureFound {
        resource := null;
        return false;
      }
      return true;
    }

    /** `resource_set(node)`: starts observing a node that already exists. */
    method ResourceSetNode(node: Resource) returns (ok: bool)
      requires resource == null
      modifies this`resource
      ensures resource == node && ok
    {
      resource := node;
      return true;
    }

    /** `operator==`: compares the observed nodes only. */
    function Equals(rhs: ObjectHandle): (r: bool)
      reads this, rhs
      ensures this == rhs ==> r
      ensures r ==> resource == rhs.resource
    {
      resource == rhs.resource
    }

    /** `rotation`: each component must lie in [-180, 180]. */
    method Rotation(x: real, y: real, z: real)
      requires resource != null
      requires -180.0 <= x <= 180.0 && -180.0 <= y <= 180.0 && -180.0 <= z <= 180.0
      modifies resource`rotation
      ensures resource.rotation == Vec(x, y, z)
      ensures -180.0 <= resource.rotation.x <= 180.0 && -180.0 <= resource.rotation.y <= 180.0
      ensures -180.0 <= resource.rotation.z <= 180.0
    {
      resource.SetRotation(Vec(x, y, z));
    }
  }

  /** Handle equality is node identity: kind and name play no part. */
  lemma EqualsIsNodeIdentity(a: ObjectHandle, b: ObjectHandle)
    ensures a.Equals(b) <==> a.resource == b.resource
    ensures a.kind == b.kind && a.name == b.name && a.resource != b.resource ==> !a.Equals(b)
    ensures a.resource == b.resource ==> a.Equals(b) && b.Equals(a)
  {
  }

  /** The first-person camera node with its collision-response animator. */
  class Camera {
    const counters: TypeCounters
    var resource: Resource?

    constructor (counters: TypeCounters)
      requires counters.Valid()
      modifies counters.registry
      ensures this.counters == counters && resource == null
      ensures Recorded(counters, Constructions)
    {
      this.counters := counters;
      resource := null;
      new;
      counters.Construct();
    }

    /**
     * `init`: `made` is what `addCameraSceneNodeFPS` returned and `anim` what
     * `createCollisionResponseAnimator` returned. A missing animator forgets
     * the camera node without dropping it.
     */
    method Init(level: Resource, made: Resource?, anim: Resource?) returns (code: int)
      requires resource == null
      modifies this`resource, (if made == null then {} else {made as Resource})`animators
      modifies (if anim == null then {} else {anim as Resource})`drops
      ensures made == null ==> code == 1 && resource == null
      ensures made != null && anim == null ==> code == 2 && resource == null && unchanged(made)
      ensures made == null && anim != null ==> unchanged(anim)
      ensures made != null && anim != null ==> code == 0 && resource == made
      ensures made != null && anim != null ==> made.animators == old(made.animators) + [anim]
      ensures made != null && anim != null ==> anim.drops == old(anim.drops) + 1
      ensures made != null && made != anim ==> made.drops == old(made.drops)
    {
      resource := made;
      if resource == null {
        return 1;
      }
      if anim == null {
        resource := null;
        return 2;
      }
      resource.AddAnimator(anim);
      anim.Drop();
      return 0;
    }
  }

  /** The engine: device, event receiver, laser billboard, camera and the selected object. */
  class Engine {
    const objectCounters: TypeCounters
    const cameraCounters: TypeCounters
    var deviceType: int
    var receiver: EventReceiver?
    var device: Resource?
    var smgr: bool
    var laser: Resource?
    var camera: Camera?
    var selected: ObjectHandle?

    /** The records of `object_handle` and `camera`: two distinct records of one registry. */
    ghost predicate CountersValid()
      reads this, objectCounters, cameraCounters, objectCounters.registry
    {
      && objectCounters.Valid() && cameraCounters.registry == objectCounters.registry && cameraCounters.Valid()
      && objectCounters.index != cameraCounters.index
    }

    /** A selected handle always observes a node. */
    ghost predicate SelectionObserves()
      reads this, selected
    {
      selected != null ==> selected.resource != null
    }

    /** The picking state: the laser and the node the selected handle observes. */
    ghost function State(): Pick
      reads this, laser, selected
      requires laser != null && SelectionObserves()
    {
      Pick(laser.visible, laser.position, if selected == null then None else Some(selected.resource))
    }

    /** `engine(path, type)`: the requested device type, or software when none is given; nothing acquired yet. */
    constructor (requested: Option<int>, objectCounters: TypeCounters, cameraCounters: TypeCounters)
      ensures deviceType == (if requested.Some? then requested.value else DeviceSoftware)
      ensures this.objectCounters == objectCounters && this.cameraCounters == cameraCounters
      ensures receiver == null && device == null && !smgr && laser == null && camera == null && selected == null
    {
      this.objectCounters := objectCounters;
      this.cameraCounters := cameraCounters;
      deviceType := if requested.Some? then requested.value else DeviceSoftware;
      receiver := null;
      device := null;
      smgr := false;
      laser := null;
      camera := null;
      selected := null;
    }

    /** `internal_event_receiver_create`: `allocOk` is whether the non-throwing `new` succeeded. */
    method InternalEventReceiverCreate(allocOk: bool) returns (ok: bool)
      requires receiver == null
      modifies this`receiver
      ensures ok == allocOk
      ensures ok ==> receiver != null && fresh(receiver) && !receiver.quit
      ensures !ok ==> receiver == null
    {
      if !allocOk {
        return false;
      }
      receiver := new EventReceiver();
      return true;
    }

    /**
     * `init_device`: `made` is what `createDevice` returned for the converted
     * device type, `archiveAdded` whether the map archive could be added. A
     * failed archive drops the device again; the scene-manager pointer taken
     * from it is left set.
     */
    method InitDevice(made: Resource?, archiveAdded: bool) returns (code: int)
      requires device == null && !smgr && receiver != null
      requires 0 <= deviceType < DeviceNum
      modifies this`device, this`smgr, (if made == null then {} else {made as Resource})`drops
      ensures made == null ==> code == 2 && device == null && !smgr
      ensures made != null && !archiveAdded ==> code == 3 && device == null && smgr
      ensures made != null && !archiveAdded ==> made.drops == old(made.drops) + 1
      ensures made != null && archiveAdded ==> code == 0 && device == made && smgr && made.drops == old(made.drops)
    {
      var driver := Convert(deviceType);
      device := made;
      if device == null {
        return 2;
      }
      smgr := true;
      if !archiveAdded {
        device.Drop();
        device := null;
        return 3;
      }
      return 0;
    }

    /**
     * `add_laser` reduced to its control flow: `made` is the billboard
     * `addBillboardSceneNode` returned, `textureFound` whether its texture
     * loaded. A missing texture forgets the billboard without dropping it.
     */
    method AddLaser(made: Resource?, textureFound: bool) returns (ok: bool)
      requires laser == null && (smgr || device != null)
      modifies this`laser, this`smgr
      ensures smgr
      ensures ok <==> made != null && textureFound
      ensures laser == (if ok then made else null)
    {
      if !smgr {
        smgr := true;
      }
      laser := made;
      if laser == null {
        return false;
      }
      if !textureFound {
        laser := null;
        return false;
      }
      return true;
    }

    /**
     * `create_camera`: a camera that exists is returned as it is. Otherwise
     * `allocOk` is whether `new camera` succeeded, `level` the level node
     * `add_level` produced (null when it failed), and `made` and `anim` the
     * library's answers to `camera::init`. Any failure after the allocation
     * deletes the camera again.
     */
    method CreateCamera(allocOk: bool, level: Resource?, made: Resource?, anim: Resource?)
      returns (code: int, c: Camera?)
      requires CountersValid()
      requires camera == null ==> smgr || device != null
      modifies this`camera, this`smgr, cameraCounters.registry
      modifies (if made == null then {} else {made as Resource})`animators
      modifies (if anim == null then {} else {anim as Resource})`drops
      ensures CountersValid() && objectCounters.Counts() == old(objectCounters.Counts())
      ensures smgr == (old(smgr) || (old(camera) == null && allocOk))
      ensures cameraCounters.registry.names == old(cameraCounters.registry.names)
      ensures cameraCounters.registry.data == old(cameraCounters.registry.data)[cameraCounters.index := cameraCounters.Counts()]
      ensures old(camera) != null ==> code == 0 && c == camera == old(camera)
      ensures old(camera) != null || !allocOk ==> cameraCounters.registry.data == old(cameraCounters.registry.data)
      ensures old(camera) == null && !allocOk ==> code == 1 && camera == null && c == null
      ensures old(camera) == null && allocOk && level == null ==> code == 2 && camera == null && c == null
      ensures old(camera) == null && allocOk && level != null && (made == null || anim == null) ==>
                code == 3 && camera == null && c == null && (made != null ==> made.drops == old(made.drops))
      ensures old(camera) == null && allocOk && code != 0 ==>
                cameraCounters.Counts() == Bump(Bump(old(cameraCounters.Counts()), Constructions), Destructions)
      ensures old(camera) == null && allocOk && level != null && made != null && anim != null ==>
                && code == 0 && c == camera && fresh(camera) && camera.resource == made
                && made.animators == old(made.animators) + [anim] && anim.drops == old(anim.drops) + 1
                && cameraCounters.Counts() == Bump(old(cameraCounters.Counts()), Constructions)
      ensures code != 0 ==> Balance(cameraCounters.Counts()) == old(Balance(cameraCounters.Counts()))
      ensures old(camera) != null || code != 0 ==> (made != null ==> unchanged(made)) && (anim != null ==> unchanged(anim))
      ensures made != null && made != anim ==> made.drops == old(made.drops)
    {
      if camera == null {
        if !allocOk {
          return 1, null;
        }
        camera := new Camera(cameraCounters);
        if !smgr {
          smgr := true;
        }
        if level == null {
          DestroyCamera();
          return 2, null;
        }
        var status := camera.Init(level, made, anim);
        if status != 0 {
          DestroyCamera();
          return 3, null;
        }
      }
      return 0, camera;
    }

    /** `destroy_camera`: deletes the camera; its node is not dropped. */
    method DestroyCamera()
      requires CountersValid() && camera != null
      modifies this`camera, cameraCounters.registry
      ensures CountersValid() && camera == null
      ensures Recorded(cameraCounters, Destructions)
    {
      cameraCounters.Destruct();
      camera := null;
    }

    /**
     * `~engine`: drops the device and deletes the event receiver, but never
     * deletes the camera or the selected handle, so neither destruction is
     * counted.
     */
    method Finalize()
      requires CountersValid()
      modifies this`receiver, (if device == null then {} else {device as Resource})`drops
      ensures receiver == null && camera == old(camera) && selected == old(selected)
      ensures old(device) != null ==> old(device).drops == old(device.drops) + 1
      ensures CountersValid() && objectCounters.registry.data == old(objectCounters.registry.data)
    {
      if device != null {
        device.Drop();
      }
      if receiver != null {
        receiver := null;
      }
    }

    /**
     * `process_collisions` for one frame: `hit` is what the ray query
     * returned and `allocOk` whether the non-throwing `new object_handle`
     * would succeed. The frame follows `PickStep`; a new handle replaces the
     * selection without the old one being deleted, and clearing the
     * selection does not delete it either.
     */
    method ProcessCollisions(hit: Option<Hit>, allocOk: bool) returns (code: int)
      requires CountersValid() && SelectionObserves()
      requires camera != null && camera.resource != null && smgr && laser != null
      modifies this`selected, laser`visible, laser`position, objectCounters.registry
      ensures CountersValid() && SelectionObserves()
      ensures objectCounters.registry.names == old(objectCounters.registry.names)
      ensures code == 0 || code == -1
      ensures code == -1 <==> Allocates(old(State()), hit) && !allocOk
      ensures code == 0 ==> State() == PickStep(old(State()), hit)
      ensures code == -1 ==> selected == null && laser.visible && laser.position == hit.value.point
      ensures Allocates(old(State()), hit) && allocOk ==>
                fresh(selected) && selected.kind == TypeUnknown && selected.name == None
                && Recorded(objectCounters, Constructions)
      ensures !(Allocates(old(State()), hit) && allocOk) ==> objectCounters.registry.data == old(objectCounters.registry.data)
      ensures hit.Some? && Highlightable(hit.value) && !Allocates(old(State()), hit) ==> selected == old(selected)
      ensures cameraCounters.Counts() == old(cameraCounters.Counts())
    {
      if hit.Some? {
        var h := hit.value;
        laser.SetVisible(true);
        laser.SetPosition(h.point);
        if h.id & IdFlagIsHighlightable == IdFlagIsHighlightable {
          if selected == null || selected.resource != h.node {
            if !allocOk {
              selected := null;
              return -1;
            }
            selected := new ObjectHandle(objectCounters, TypeUnknown, None);
            var _ := selected.ResourceSetNode(h.node);
          }
        } else {
          selected := null;
        }
      } else {
        selected := null;
        laser.SetVisible(false);
      }
      return 0;
    }

    /**
     * `run`: `device_->run()` first hands the pending `events` to the
     * receiver and answers `deviceRuns`; the loop then goes on only if the
     * device runs and no quit was requested, counting a 'q' delivered by
     * this very call.
     */
    method Run(events: seq<Event>, deviceRuns: bool) returns (r: bool)
      requires device != null && receiver != null
      modifies receiver
      ensures receiver.quit == QuitAfter(old(receiver.quit), events)
      ensures r <==> deviceRuns && !QuitAfter(old(receiver.quit), events)
    {
      receiver.Deliver(events);
      r := deviceRuns && !receiver.quit;
    }

    /** `selected_object`: the current selection, possibly null; a non-null one observes a node. */
    function SelectedObject(): (r: ObjectHandle?)
      reads this, selected
      requires SelectionObserves()
      ensures r != null ==> r.resource != null
    {
      selected
    }
  }

  /** Registers the two counted types the scenarios below watch, in this order. */
  method RegisterTypes() returns (registry: Registry, objectCounters: TypeCounters, cameraCounters: TypeCounters)
    ensures fresh(registry) && registry.names == ["object_handle", "camera"]
    ensures registry.data == [Zero(), Zero()]
    ensures objectCounters.registry == registry && objectCounters.index == 0 && objectCounters.Valid()
    ensures cameraCounters.registry == registry && cameraCounters.index == 1 && cameraCounters.Valid()
  {
    registry := new Registry();
    objectCounters := new TypeCounters.Register(registry, "object_handle");
    cameraCounters := new TypeCounters.Register(registry, "camera");
  }

  /** The reports of a registry of two types, in registration order. */
  lemma TwoRecordDiagnoses(data: seq<Record>, names: seq<string>)
    requires |data| == |names| == 2
    ensures Diagnoses(data, names) == Diagnosis(data[0], names[0]) + Diagnosis(data[1], names[1])
  {
    assert data[..1][..0] == [] && names[..1][..0] == [];
    assert Diagnoses(data[..1], names[..1]) == Diagnosis(data[0], names[0]);
  }

  /**
   * Brings an engine up to the point where its camera is created: event
   * receiver, device and laser, every library call succeeding (the font and
   * the light are not modelled).
   */
  method StartDevice() returns (registry: Registry, e: Engine)
    ensures e.objectCounters.registry == registry && e.objectCounters.index == 0
    ensures e.cameraCounters.registry == registry && e.cameraCounters.index == 1
    ensures e.CountersValid()
    ensures registry.names == ["object_handle", "camera"] && registry.data == [Zero(), Zero()]
    ensures e.device != null && e.smgr && e.laser != null && e.camera == null && e.selected == null
    ensures fresh(registry) && fresh(e) && fresh(e.device) && fresh(e.laser)
  {
    var objectCounters, cameraCounters;
    registry, objectCounters, cameraCounters := RegisterTypes();
    e := new Engine(None, objectCounters, cameraCounters);
    var _ := e.InternalEventReceiverCreate(true);
    var device := new Resource();
    var code := e.InitDevice(device, true);
    var laser := new Resource();
    var _ := e.AddLaser(laser, true);
  }

  /**
   * Brings an engine up with event receiver, device, laser and camera, every
   * library call succeeding. Only the camera has been counted.
   */
  method StartEngine() returns (registry: Registry, e: Engine)
    ensures e.objectCounters.registry == registry && e.objectCounters.index == 0
    ensures e.cameraCounters.registry == registry && e.cameraCounters.index == 1
    ensures e.CountersValid() && e.SelectionObserves()
    ensures registry.names == ["object_handle", "camera"]
    ensures registry.data == [Zero(), Bump(Zero(), Constructions)]
    ensures e.camera != null && e.camera.resource != null && e.smgr && e.laser != null && e.selected == null
    ensures e.device != null && fresh(e.device)
    ensures fresh(registry) && fresh(e) && fresh(e.laser) && fresh(e.camera)
  {
    registry, e := StartDevice();
    var level := new Resource();
    var node := new Resource();
    var anim := new Resource();
    var code, c := e.CreateCamera(true, level, node, anim);
  }

  /**
   * A camera node made by the library but no collision animator: `init`
   * forgets the node without dropping it, and `create_camera` reports the
   * failure. The node is left with no owner, still referenced once.
   */
  method CameraNodeForgottenUndropped() returns (code: int, node: Resource)
    ensures code == 3 && node.drops == 0 && node.animators == []
  {
    var registry, e := StartDevice();
    var level := new Resource();
    node := new Resource();
    var c;
    code, c := e.CreateCamera(true, level, node, null);
    assert e.camera == null && c == null;
  }

  /**
   * An engine that is brought up and then destroyed: `validate` reports the
   * camera as leaked, since `~engine` never deletes it.
   */
  method CameraOutlivesEngine() returns (ok: bool, reports: seq<Report>)
    ensures !ok
    ensures reports == [Leaks("camera", 1)]
  {
    var registry, e := StartEngine();
    e.Finalize();
    ok, reports := registry.Validate();
    TwoRecordDiagnoses(registry.data, registry.names);
  }

  /**
   * Two frames aimed at two different characters: each allocates a handle,
   * the first is lost without being deleted, and `validate` reports two live
   * handles although only one is selected (and the camera, still alive).
   */
  method SelectionReplacementLeaks() returns (ok: bool, reports: seq<Report>)
    ensures !ok
    ensures reports == [Leaks("object_handle", 2), Leaks("camera", 1)]
  {
    var registry, e := StartEngine();
    var faerie := new Resource();
    var ninja := new Resource();
    var flags := IdFlagIsPickable | IdFlagIsHighlightable;
    var code := e.ProcessCollisions(Some(Hit(faerie, flags, Vec(1.0, 0.0, 0.0))), true);
    assert registry.data == [Bump(Zero(), Constructions), Bump(Zero(), Constructions)];
    assert e.selected.resource == faerie;
    code := e.ProcessCollisions(Some(Hit(ninja, flags, Vec(2.0, 0.0, 0.0))), true);
    assert registry.data == [Bump(Bump(Zero(), Constructions), Constructions), Bump(Zero(), Constructions)];
    ok, reports := registry.Validate();
    TwoRecordDiagnoses(registry.data, registry.names);
  }

  /** A 'q' pressed while `run()` lets the device process events makes that same call end the loop. */
  method QuitPressStopsRun() returns (running: bool)
    ensures !running
  {
    var objectCounters, cameraCounters;
    var registry;
    registry, objectCounters, cameraCounters := RegisterTypes();
    var e := new Engine(None, objectCounters, cameraCounters);
    var _ := e.InternalEventReceiverCreate(true);
    var device := new Resource();
    var code := e.InitDevice(device, true);
    var events := [OtherEvent, KeyInput(true, KeyQ)];
    assert IsQuitPress(events[1]);
    running := e.Run(events, true);
  }

  /** A selector that is initialised, destroyed and then destructed drops its library object exactly once. */
  method SelectorDropsOnce() returns (drops: nat)
    ensures drops == 1
  {
    var registry := new Registry();
    var selectorCounters := new TypeCounters.Register(registry, "selector");
    var objectCounters := new TypeCounters.Register(registry, "object_handle");
    var handle := new ObjectHandle(objectCounters, TypeUnknown, None);
    var node := new Resource();
    var _ := handle.ResourceSetNode(node);
    var s := new Selector(selectorCounters);
    var made := new Resource();
    var status := s.Init(handle, made);
    s.Destroy();
    s.Finalize();
    drops := made.drops;
  }
}
