/**
 * The per-frame picking step as a function of values: what the laser
 * indicator and the selection look like after one ray query. The engine's
 * `process_collisions` is proved against it.
 */
module Picking {
  import opened Wrappers
  import opened Native

  // Node-id flags the scene nodes are tagged with.
  const IdFlagNotPickable: bv32 := 0
  const IdFlagIsPickable: bv32 := 1
  const IdFlagIsHighlightable: bv32 := 2

  /** What the ray query returns when it hits: the nearest pickable node, its id flags and the intersection. */
  datatype Hit = Hit(node: Resource, id: bv32, point: Vec)

  predicate Highlightable(h: Hit)
  {
    h.id & IdFlagIsHighlightable == IdFlagIsHighlightable
  }

  /** The picking state: the laser billboard, and the node the selected handle observes, if any. */
  datatype Pick = Pick(laserVisible: bool, laserPosition: Vec, selection: Option<Resource>)

  /** One frame: a hit shows the laser at the intersection and selects a highlightable node; a miss hides it. */
  function PickStep(s: Pick, hit: Option<Hit>): Pick
  {
    match hit
    case None => Pick(false, s.laserPosition, None)
    case Some(h) => Pick(true, h.point, if Highlightable(h) then Some(h.node) else None)
  }

  /** Whether the frame needs a new handle: a highlightable node other than the one already selected. */
  predicate Allocates(s: Pick, hit: Option<Hit>)
  {
    hit.Some? && Highlightable(hit.value) && s.selection != Some(hit.value.node)
  }

  /** The selection after a frame observes a node exactly when that node was hit and is highlightable. */
  lemma SelectionAfterStep(s: Pick, hit: Option<Hit>, n: Resource)
    ensures PickStep(s, hit).selection == Some(n) <==> hit.Some? && hit.value.node == n && Highlightable(hit.value)
    ensures PickStep(s, hit).laserVisible <==> hit.Some?
    ensures hit.Some? ==> PickStep(s, hit).laserPosition == hit.value.point
  {
  }

  /** Hitting the same thing again changes nothing and never asks for a new handle. */
  lemma RepeatedHitIsStable(s: Pick, hit: Option<Hit>)
    ensures PickStep(PickStep(s, hit), hit) == PickStep(s, hit)
    ensures !Allocates(PickStep(s, hit), hit)
  {
  }

  /** The state after a run of frames. */
  function PickRun(s: Pick, hits: seq<Option<Hit>>): Pick
    decreases |hits|
  {
    if hits == [] then s else PickRun(PickStep(s, hits[0]), hits[1..])
  }

  /** How many frames of the run allocate a new handle. */
  function Allocations(s: Pick, hits: seq<Option<Hit>>): nat
    decreases |hits|
  {
    if hits == [] then 0
    else (if Allocates(s, hits[0]) then 1 else 0) + Allocations(PickStep(s, hits[0]), hits[1..])
  }

  /** Whether each frame hits a highlightable node other than the one hit the frame before. */
  predicate Alternating(s: Pick, hits: seq<Option<Hit>>)
  {
    && (forall i :: 0 <= i < |hits| ==> hits[i].Some? && Highlightable(hits[i].value))
    && (hits != [] ==> s.selection != Some(hits[0].value.node))
    && (forall i :: 0 < i < |hits| ==> hits[i - 1].value.node != hits[i].value.node)
  }

  /**
   * Aiming at a different highlightable node every frame allocates a handle
   * every frame, although at most one is selected at the end.
   */
  lemma {:induction false} AlternatingAllocatesEveryFrame(s: Pick, hits: seq<Option<Hit>>)
    requires Alternating(s, hits)
    ensures Allocations(s, hits) == |hits|
    ensures hits != [] ==> PickRun(s, hits).selection == Some(hits[|hits| - 1].value.node)
    decreases |hits|
  {
    if hits != [] {
      var s' := PickStep(s, hits[0]);
      var rest := hits[1..];
      assert Alternating(s', rest) by {
        forall i | 0 <= i < |rest| ensures rest[i].Some? && Highlightable(rest[i].value) {
          assert rest[i] == hits[i + 1];
        }
        forall i | 0 < i < |rest| ensures rest[i - 1].value.node != rest[i].value.node {
          assert rest[i - 1] == hits[i] && rest[i] == hits[i + 1];
        }
        if rest != [] {
          assert hits[0].value.node != hits[1].value.node;
        }
      }
      AlternatingAllocatesEveryFrame(s', rest);
      if rest != [] {
        assert rest[|rest| - 1] == hits[|hits| - 1];
      }
    }
  }
}
