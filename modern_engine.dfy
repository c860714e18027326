/**
 * The newer, RAII engine interface: library objects owned through
 * `droppable_res_ptr`, characters observed through copyable `object_handle`
 * values, rotations typed as `angle`, the selection kept in an optional, and
 * a `run` loop whose scope guard closes every scene it opened.
 */
module ModernEngine {
  import opened Wrappers
  import opened Native
  import opened Events
  import opened RangedValue

  /** `engine::device_type`, whose `last` enumerator names `opengl`. */
  datatype DeviceType = Null | Software | D3d9 | Opengl

  const Last: DeviceType := Opengl

  /**
   * `droppable_res_ptr<T>`: a unique owner of one library object whose
   * deleter calls `drop()`. Moving it leaves the source empty, and an empty
   * pointer deletes nothing.
   */
  class DroppableResPtr {
    var ptr: Resource?

    constructor (p: Resource?)
      ensures ptr == p
    {
      ptr := p;
    }

    /** The move constructor: takes the object over and empties `other`. */
    constructor MoveFrom(other: DroppableResPtr)
      modifies other
      ensures ptr == old(other.ptr) && other.ptr == null
    {
      ptr := other.ptr;
      new;
      other.ptr := null;
    }

    /** The destructor: drops the owned object, if any, once. */
    method Destroy()
      modifies this`ptr, (if ptr == null then {} else {ptr as Resource})`drops
      ensures ptr == null
      ensures old(ptr) != null ==> old(ptr).drops == old(ptr.drops) + 1
    {
      if ptr != null {
        ptr.Drop();
        ptr := null;
      }
    }
  }

  /**
   * A library object handed to a pointer, which is moved into a second one
   * before both go out of scope: the object is dropped exactly once.
   */
  method MovedOwnerDropsOnce() returns (drops: nat)
    ensures drops == 1
  {
    var device := new Resource();
    var first := new DroppableResPtr(device);
    var second := new DroppableResPtr.MoveFrom(first);
    second.Destroy();
    first.Destroy();
    drops := device.drops;
  }

  /**
   * `object_handle`: observes one node that is never null. Its only member
   * is that pointer (the counters base it derives from has none), so it is a
   * plain copyable value.
   */
  datatype ObjectHandle = ObjectHandle(resource: Resource)

  /** The defaulted `operator==`: member-wise comparison of the whole object. */
  predicate Equal(a: ObjectHandle, b: ObjectHandle): (r: bool)
    ensures r ==> a.resource == b.resource
    ensures a.resource == b.resource ==> r
  {
    a == b
  }

  /**
   * Member-wise comparison is node identity: two handles over the same node
   * are equal however they were made, and a copy compares equal to its source.
   */
  lemma EqualIsNodeIdentity(a: ObjectHandle, b: ObjectHandle)
    ensures Equal(a, b) <==> a.resource == b.resource
    ensures Equal(a, ObjectHandle(a.resource))
  {
  }

  /** `rotation`: takes `angle`s, so every component of the node's rotation lies in [-180, 180]. */
  method Rotation(h: ObjectHandle, x: Angle, y: Angle, z: Angle)
    modifies h.resource`rotation
    ensures h.resource.rotation == Vec(x.value, y.value, z.value)
    ensures -180.0 <= h.resource.rotation.x <= 180.0 && -180.0 <= h.resource.rotation.y <= 180.0
    ensures -180.0 <= h.resource.rotation.z <= 180.0
  {
    h.resource.SetRotation(Vec(x.value, y.value, z.value));
  }

  /**
   * What one turn of the loop meets: the events `device->run()` delivers,
   * its answer, whether the window is active, and whether `begin_scene` or
   * the user's function throws.
   */
  datatype Frame = Frame(events: seq<Event>, deviceRuns: bool, windowActive: bool, beginThrows: bool, userThrows: bool)

  /** The calls the loop makes, in order. */
  datatype Call = BeginScene | UserCode | EndScene | Yield

  /** How `run` ends: by returning, or by an exception from `begin_scene` or from the user's function. */
  datatype Outcome = Returned | BeginSceneThrew | UserThrew

  /**
   * The calls of `run` over the frames, and how it ends, given the quit flag
   * on entry. After the last frame the device no longer runs.
   */
  function RunSpec(frames: seq<Frame>, quit: bool): (seq<Call>, Outcome)
    decreases |frames|
  {
    if frames == [] then ([], Returned)
    else
      var f := frames[0];
      var q := QuitAfter(quit, f.events);
      if !f.deviceRuns || q then ([], Returned)
      else if !f.windowActive then
        var rest := RunSpec(frames[1..], q);
        ([Yield] + rest.0, rest.1)
      else if f.beginThrows then ([BeginScene], BeginSceneThrew)
      else if f.userThrows then ([BeginScene, UserCode, EndScene], UserThrew)
      else
        var rest := RunSpec(frames[1..], q);
        ([BeginScene, UserCode, EndScene] + rest.0, rest.1)
  }

  /**
   * The quit flag when `run` ends, over the same frames as `RunSpec`: the
   * events of every frame polled have been delivered.
   */
  function QuitSpec(frames: seq<Frame>, quit: bool): (r: bool)
    ensures quit ==> r
    ensures frames == [] ==> r == quit
    decreases |frames|
  {
    if frames == [] then quit
    else
      var f := frames[0];
      var q := QuitAfter(quit, f.events);
      if !f.deviceRuns || q then q
      else if f.windowActive && (f.beginThrows || f.userThrows) then q
      else QuitSpec(frames[1..], q)
  }

  /** A quit request is never withdrawn, and a loop that ends with one set has returned normally. */
  lemma {:induction false} QuitPersists(frames: seq<Frame>, quit: bool)
    ensures quit ==> QuitSpec(frames, quit)
    ensures QuitSpec(frames, quit) ==> RunSpec(frames, quit).1 == Returned
    decreases |frames|
  {
    if frames != [] {
      var f := frames[0];
      var q := QuitAfter(quit, f.events);
      if f.deviceRuns && !q && !(f.windowActive && (f.beginThrows || f.userThrows)) {
        QuitPersists(frames[1..], q);
      }
    }
  }

  /** A quit request already made ends the loop before any call. */
  lemma QuitStopsAtOnce(frames: seq<Frame>)
    ensures RunSpec(frames, true) == ([], Returned)
  {
  }

  /**
   * Every `end_scene` belongs to one user call and every user call to one
   * `begin_scene`; only a `begin_scene` that threw has no `end_scene`.
   */
  lemma {:induction false} RunBalancesScenes(frames: seq<Frame>, quit: bool)
    ensures var (t, o) := RunSpec(frames, quit);
      && multiset(t)[EndScene] == multiset(t)[UserCode]
      && multiset(t)[BeginScene] == multiset(t)[UserCode] + (if o == BeginSceneThrew then 1 else 0)
    decreases |frames|
  {
    if frames != [] {
      var f := frames[0];
      var q := QuitAfter(quit, f.events);
      if f.deviceRuns && !q && (!f.windowActive || (!f.beginThrows && !f.userThrows)) {
        RunBalancesScenes(frames[1..], q);
      }
    }
  }

  /** Adjacency in the trace: `c` sits at `k` and `d` right after it. */
  predicate Followed(t: seq<Call>, k: int, c: Call, d: Call)
  {
    0 <= k && k + 1 < |t| && t[k] == c && t[k + 1] == d
  }

  /**
   * Each user call comes right after a `begin_scene` and right before an
   * `end_scene`, each `end_scene` right after a user call, and each
   * `begin_scene` is followed by a user call unless it is the last call and threw.
   */
  predicate Bracketed(t: seq<Call>, o: Outcome)
  {
    && (forall k :: 0 <= k < |t| && t[k] == UserCode ==> Followed(t, k - 1, BeginScene, UserCode) && Followed(t, k, UserCode, EndScene))
    && (forall k :: 0 <= k < |t| && t[k] == EndScene ==> Followed(t, k - 1, UserCode, EndScene))
    && (forall k :: 0 <= k < |t| && t[k] == BeginScene ==>
          Followed(t, k, BeginScene, UserCode) || (k == |t| - 1 && o == BeginSceneThrew))
  }

  /** The scope guard at work: the calls of `run` are always bracketed. */
  lemma {:induction false} RunBracketsUserCode(frames: seq<Frame>, quit: bool)
    ensures Bracketed(RunSpec(frames, quit).0, RunSpec(frames, quit).1)
    decreases |frames|
  {
    if frames != [] {
      var f := frames[0];
      var q := QuitAfter(quit, f.events);
      if f.deviceRuns && !q && (!f.windowActive || (!f.beginThrows && !f.userThrows)) {
        RunBracketsUserCode(frames[1..], q);
        var block: seq<Call> := if f.windowActive then [BeginScene, UserCode, EndScene] else [Yield];
        var rest := RunSpec(frames[1..], q);
        var t := block + rest.0;
        assert RunSpec(frames, quit) == (t, rest.1);
        assert Bracketed(rest.0, rest.1);
        forall k | 0 <= k < |t| && t[k] == UserCode
          ensures Followed(t, k - 1, BeginScene, UserCode) && Followed(t, k, UserCode, EndScene)
        {
          if k < |block| {
            assert f.windowActive && k == 1 && t[0] == BeginScene && t[2] == EndScene;
          } else {
            var j := k - |block|;
            assert rest.0[j] == UserCode;
            assert t[k - 1] == rest.0[j - 1] && t[k + 1] == rest.0[j + 1];
          }
        }
        forall k | 0 <= k < |t| && t[k] == EndScene
          ensures Followed(t, k - 1, UserCode, EndScene)
        {
          if k < |block| {
            assert f.windowActive && k == 2 && t[1] == UserCode;
          } else {
            var j := k - |block|;
            assert rest.0[j] == EndScene;
            assert t[k - 1] == rest.0[j - 1];
          }
        }
        forall k | 0 <= k < |t| && t[k] == BeginScene
          ensures Followed(t, k, BeginScene, UserCode) || (k == |t| - 1 && rest.1 == BeginSceneThrew)
        {
          if k < |block| {
            assert f.windowActive && k == 0 && t[1] == UserCode;
          } else {
            var j := k - |block|;
            assert rest.0[j] == BeginScene;
            if j + 1 < |rest.0| {
              assert t[k + 1] == rest.0[j + 1];
            }
          }
        }
      }
    }
  }

  /** The engine's state that `run` and the selection touch. */
  class Engine {
    const receiver: EventReceiver
    var selectedObject: Option<ObjectHandle>

    constructor (receiver: EventReceiver)
      ensures this.receiver == receiver && selectedObject == None
    {
      this.receiver := receiver;
      selectedObject := None;
    }

    /** `device_->run() && !event_receiver_.quit()`: the device delivers the frame's events first. */
    method Poll(frames: seq<Frame>, i: nat) returns (running: bool)
      requires i <= |frames|
      modifies receiver
      ensures i == |frames| ==> !running && receiver.quit == old(receiver.quit)
      ensures i < |frames| ==> receiver.quit == QuitAfter(old(receiver.quit), frames[i].events)
      ensures i < |frames| ==> running == (frames[i].deviceRuns && !receiver.quit)
    {
      if i == |frames| {
        return false;
      }
      receiver.Deliver(frames[i].events);
      running := frames[i].deviceRuns && !receiver.quit;
    }

    /**
     * `run(f)`: loops while the device runs and no quit was requested; an
     * active window gets `begin_scene`, the user's function and, through the
     * scope guard, `end_scene` even when the function throws; an inactive
     * one gets `yield`. An exception leaves the loop.
     */
    method Run(frames: seq<Frame>) returns (trace: seq<Call>, outcome: Outcome)
      modifies receiver
      ensures (trace, outcome) == RunSpec(frames, old(receiver.quit))
      ensures receiver.quit == QuitSpec(frames, old(receiver.quit))
      ensures old(receiver.quit) ==> receiver.quit
      ensures receiver.quit ==> outcome == Returned
    {
      QuitPersists(frames, receiver.quit);
      trace := [];
      var i := 0;
      assert frames[i..] == frames && trace + RunSpec(frames, receiver.quit).0 == RunSpec(frames, receiver.quit).0;
      while true
        invariant 0 <= i <= |frames|
        invariant RunSpec(frames, old(receiver.quit)) ==
          (trace + RunSpec(frames[i..], receiver.quit).0, RunSpec(frames[i..], receiver.quit).1)
        invariant QuitSpec(frames, old(receiver.quit)) == QuitSpec(frames[i..], receiver.quit)
        decreases |frames| - i
      {
        ghost var quit := receiver.quit;
        ghost var before := trace;
        var running := Poll(frames, i);
        if !running {
          assert RunSpec(frames[i..], quit) == ([], Returned);
          assert trace + [] == trace;
          return trace, Returned;
        }
        var f := frames[i];
        assert frames[i..][0] == f && frames[i..][1..] == frames[i + 1..];
        ghost var rest := RunSpec(frames[i + 1..], receiver.quit);
        if f.windowActive {
          trace := trace + [BeginScene];
          if f.beginThrows {
            assert RunSpec(frames[i..], quit) == ([BeginScene], BeginSceneThrew);
            return trace, BeginSceneThrew;
          }
          trace := trace + [UserCode];
          trace := trace + [EndScene];
          assert trace == before + [BeginScene, UserCode, EndScene];
          if f.userThrows {
            assert RunSpec(frames[i..], quit) == ([BeginScene, UserCode, EndScene], UserThrew);
            assert trace + [] == trace;
            return trace, UserThrew;
          }
          assert RunSpec(frames[i..], quit) == ([BeginScene, UserCode, EndScene] + rest.0, rest.1);
          assert before + ([BeginScene, UserCode, EndScene] + rest.0) == trace + rest.0;
        } else {
          trace := trace + [Yield];
          assert RunSpec(frames[i..], quit) == ([Yield] + rest.0, rest.1);
          assert before + ([Yield] + rest.0) == trace + rest.0;
        }
        i := i + 1;
      }
    }
  }

  /** A frame that presses 'q' ends the loop before anything is drawn in it. */
  method QuitPressEndsRun() returns (trace: seq<Call>, outcome: Outcome)
    ensures trace == [BeginScene, UserCode, EndScene] && outcome == Returned
  {
    var receiver := new EventReceiver();
    var e := new Engine(receiver);
    var active := Frame([OtherEvent], true, true, false, false);
    var quitting := Frame([KeyInput(true, KeyQ)], true, true, false, false);
    assert IsQuitPress(quitting.events[0]);
    trace, outcome := e.Run([active, quitting, active]);
  }
}
