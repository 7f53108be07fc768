/** Types shared by the three dashboard components. */
module Common {

  /**
   * The lifecycle status of a segment, written 'ideal' | 'risk' | 'lost' |
   * 'potential' in both the heatmap and the segment tree.
   */
  datatype Status = Ideal | Risk | Lost | Potential

  /** A value that may be absent (`undefined` from `Array.find`, or `null`). */
  datatype Option<T> = None | Some(value: T)
}
