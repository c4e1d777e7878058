// The transform settings of io_scene_psk_psa/shared/types.py: a forward and
// an up axis that the update callbacks keep apart, a scale and an export
// space, with their defaults.
module Transform {

  /** `axis_identifiers`, in declaration order. */
  const AXIS_IDENTIFIERS: seq<string> := ["X", "Y", "Z", "-X", "-Y", "-Z"]

  /**
   * `next((axis for axis in axis_identifiers if axis != other), fallback)`:
   * the first identifier that differs from other.
   */
  function FirstOtherAxis(other: string, fallback: string): (r: string)
    ensures r != other
    ensures r == if other == "X" then "Y" else "X"
  {
    if AXIS_IDENTIFIERS[0] != other then AXIS_IDENTIFIERS[0]
    else if AXIS_IDENTIFIERS[1] != other then AXIS_IDENTIFIERS[1]
    else fallback
  }

  /** The properties of TransformMixin and ExportSpaceMixin on one operator. */
  class TransformSettings {
    var forwardAxis: string
    var upAxis: string
    var scale: real
    var exportSpace: string

    /** The declared defaults: forward 'X', up 'Z', scale 1.0, export space 'WORLD'. */
    constructor ()
      ensures forwardAxis == "X" && upAxis == "Z" && scale == 1.0 && exportSpace == "WORLD"
    {
      forwardAxis := "X";
      upAxis := "Z";
      scale := 1.0;
      exportSpace := "WORLD";
    }

    /** The axes differ as strings. */
    predicate AxesDiffer()
      reads this
    {
      forwardAxis != upAxis
    }

    /**
     * `forward_axis_update`: when the new forward axis equals the up axis,
     * the up axis moves to the first identifier that differs from it.
     */
    method ForwardAxisUpdate()
      modifies this
      ensures AxesDiffer()
      ensures forwardAxis == old(forwardAxis) && scale == old(scale) && exportSpace == old(exportSpace)
      ensures old(forwardAxis) != old(upAxis) ==> upAxis == old(upAxis)
      ensures old(forwardAxis) == old(upAxis) ==> upAxis == FirstOtherAxis(forwardAxis, "Z")
    {
      if forwardAxis == upAxis {
        upAxis := FirstOtherAxis(forwardAxis, "Z");
      }
    }

    /** `up_axis_update`: the mirror image, moving the forward axis. */
    method UpAxisUpdate()
      modifies this
      ensures AxesDiffer()
      ensures upAxis == old(upAxis) && scale == old(scale) && exportSpace == old(exportSpace)
      ensures old(forwardAxis) != old(upAxis) ==> forwardAxis == old(forwardAxis)
      ensures old(forwardAxis) == old(upAxis) ==> forwardAxis == FirstOtherAxis(upAxis, "X")
    {
      if upAxis == forwardAxis {
        forwardAxis := FirstOtherAxis(upAxis, "X");
      }
    }
  }

  /**
   * The callbacks keep the axes different only as strings: forward '-X'
   * with up '-X' moves up to 'X', the opposite direction of the same axis.
   */
  method OppositeAxesAllowed() returns (settings: TransformSettings)
    ensures settings.forwardAxis == "-X" && settings.upAxis == "X"
  {
    settings := new TransformSettings();
    settings.forwardAxis := "-X";
    settings.upAxis := "-X";
    settings.ForwardAxisUpdate();
  }
}
