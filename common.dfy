/** Small value types shared by the three screens of the application. */
module Common {

  datatype Option<+T> = None | Some(value: T)

  /** Colour codes used for signed figures across all screens. */
  const Green := "#14AE5C"
  const Red := "#F24822"
  const Grey := "#9B9B9B"

  /**
   * The sign classifier every screen uses to colour a figure: gains green,
   * losses red, and exactly zero grey.
   */
  function DetermineColor(value: real): (c: string)
    ensures c == Green <==> value > 0.0
    ensures c == Red <==> value < 0.0
    ensures c == Grey <==> value == 0.0
  {
    if value > 0.0 then Green
    else if value < 0.0 then Red
    else Grey
  }
}
