/** The optional-value type used wherever the relay may or may not produce something. */
module Wrappers {

  datatype Option<+T> = None | Some(value: T)
  {
    /** The zero- or one-element sequence holding the value, if any. */
    function ToSeq(): (s: seq<T>)
      ensures |s| <= 1
      ensures Some? <==> |s| == 1
      ensures Some? ==> s[0] == value
    {
      match this
      case None => []
      case Some(v) => [v]
    }
  }
}
