/**
 * Dock magnification: the pose each dock item is tweened to depends only on
 * its distance from the hovered index. Scales are in percent.
 */
module Dock {
  /** An item's scale (percent) and vertical offset, and its tooltip's opacity and offset. */
  datatype Pose = Pose(scalePct: int, y: int, tipOpacity: int, tipY: int)

  /** The pose `gsap.set` gives every item at start-up, with its tooltip hidden. */
  const Rest := Pose(100, 0, 0, 0)

  /** The tier of an item at distance `d` from the hovered index. */
  function Tier(d: nat): (p: Pose)
    ensures d == 0 <==> p.tipOpacity == 1
    ensures d <= 2 <==> p.scalePct > 100
    ensures d > 2 ==> p == Rest
  {
    if d == 0 then Pose(160, -20, 1, -2)
    else if d == 1 then Pose(125, -10, 0, 0)
    else if d == 2 then Pose(112, -5, 0, 0)
    else Rest
  }

  function Distance(i: int, idx: int): nat {
    if i >= idx then i - idx else idx - i
  }

  /** The pose of item `i` when item `idx` is hovered. */
  function PoseFor(i: int, idx: int): (p: Pose)
    ensures p.tipOpacity == 1 <==> i == idx
    ensures p.scalePct > 100 <==> -2 <= i - idx <= 2
  {
    Tier(Distance(i, idx))
  }

  /** Farther items are never larger nor higher than nearer ones. */
  lemma TierMonotone(d: nat, d': nat)
    requires d <= d'
    ensures Tier(d').scalePct <= Tier(d).scalePct
    ensures Tier(d).y <= Tier(d').y
  {
  }

  /**
   * `updateDock(-1)` on mouse leave: item 0 is at distance 1 and item 1 at
   * distance 2, so they stay raised while every later item rests.
   */
  lemma LeaveKeepsFirstTwoRaised(i: nat)
    ensures PoseFor(0, -1) == Pose(125, -10, 0, 0)
    ensures PoseFor(1, -1) == Pose(112, -5, 0, 0)
    ensures i >= 2 ==> PoseFor(i, -1) == Rest
  {
  }

  class Dock {
    /** `currentHovered`. */
    var hovered: int
    /** The poses of the `.dock-item` elements, in document order. */
    const items: array<Pose>

    constructor (n: nat)
      ensures hovered == -1 && fresh(items) && items.Length == n
      ensures forall i :: 0 <= i < n ==> items[i] == Rest
    {
      hovered := -1;
      items := new Pose[n](_ => Rest);
    }

    /** `updateDock(idx)`: record the hovered index and tween every item to its tier. */
    method UpdateDock(idx: int)
      modifies this, items
      ensures hovered == idx
      ensures forall i :: 0 <= i < items.Length ==> items[i] == PoseFor(i, idx)
    {
      hovered := idx;
      var i := 0;
      while i < items.Length
        invariant 0 <= i <= items.Length && hovered == idx
        invariant forall k :: 0 <= k < i ==> items[k] == PoseFor(k, idx)
      {
        items[i] := if i == idx then Pose(160, -20, 1, -2)
                    else if Distance(i, idx) == 1 then Pose(125, -10, 0, 0)
                    else if Distance(i, idx) == 2 then Pose(112, -5, 0, 0)
                    else Pose(100, 0, 0, 0);
        i := i + 1;
      }
    }

    /** `mousemove` over item `idx`: the dock is updated only when the hovered item changes. */
    method MouseMove(idx: int)
      requires 0 <= idx < items.Length
      modifies this, items
      ensures hovered == idx
      ensures idx == old(hovered) ==> items[..] == old(items[..])
      ensures idx != old(hovered) ==> forall i :: 0 <= i < items.Length ==> items[i] == PoseFor(i, idx)
    {
      if idx != hovered {
        UpdateDock(idx);
      }
    }

    /** `mouseleave` of the dock container. */
    method MouseLeave()
      modifies this, items
      ensures hovered == -1
      ensures forall i :: 0 <= i < items.Length ==> items[i] == PoseFor(i, -1)
    {
      UpdateDock(-1);
    }
  }
}
