/** Stacking order: the `topZ` query over the z-indices of every window element. */
module ZOrder {
  /** The value `topZ` never goes below, and what an unset or zero z-index reads as. */
  const Floor := 1000

  /** `+el.style.zIndex || 1000`: an unset (empty, hence 0) z-index reads as the floor. */
  function ReadZ(z: int): (r: int)
    ensures r != 0
    ensures r == z <==> z != 0
    ensures z == 0 ==> r == Floor
  {
    if z == 0 then Floor else z
  }

  /**
   * `topZ`: the maximum of the floor and the read z-index of every window,
   * in document order (minimized windows included).
   */
  function TopZ(zs: seq<int>): (t: int)
    ensures Floor <= t
    ensures forall i :: 0 <= i < |zs| ==> ReadZ(zs[i]) <= t
    ensures t == Floor || exists i :: 0 <= i < |zs| && ReadZ(zs[i]) == t
    decreases |zs|
  {
    if zs == [] then Floor
    else
      var rest := TopZ(zs[1..]);
      if ReadZ(zs[0]) > rest then ReadZ(zs[0])
      else
        assert forall i :: 1 <= i < |zs| ==> zs[i] == zs[1..][i - 1];
        rest
  }
}
