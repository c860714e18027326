/**
 * The rendering library's objects, seen from this code: each one is created
 * by the library (never by the wrappers), has an identity, and is released
 * through `drop()`. Only the properties the wrappers set are kept.
 */
module Native {

  datatype Vec = Vec(x: real, y: real, z: real)

  /** A reference-counted Irrlicht object: device, scene node, camera, billboard, selector or animator. */
  class Resource {
    var drops: nat
    var visible: bool
    var position: Vec
    var rotation: Vec
    var animators: seq<Resource>

    /** What the library hands out: not yet dropped by anyone here. */
    constructor ()
      ensures drops == 0 && visible && animators == []
    {
      drops := 0;
      visible := true;
      position := Vec(0.0, 0.0, 0.0);
      rotation := Vec(0.0, 0.0, 0.0);
      animators := [];
    }

    /** `drop()`: gives up one reference. */
    method Drop()
      modifies this`drops
      ensures drops == old(drops) + 1
    {
      drops := drops + 1;
    }

    method SetVisible(v: bool)
      modifies this`visible
      ensures visible == v
    {
      visible := v;
    }

    method SetPosition(p: Vec)
      modifies this`position
      ensures position == p
    {
      position := p;
    }

    method SetRotation(r: Vec)
      modifies this`rotation
      ensures rotation == r
    {
      rotation := r;
    }

    /** `addAnimator(a)`: the node keeps the animator. */
    method AddAnimator(a: Resource)
      modifies this`animators
      ensures animators == old(animators) + [a]
    {
      animators := animators + [a];
    }
  }
}
