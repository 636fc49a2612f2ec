/** Wrapper datatypes shared by every module of the model. */
module Wrappers {

  /** An optional value; `None` stands for a Go nil pointer. */
  datatype Option<+T> = None | Some(value: T)

  /** A Go slice whose nil-ness can be observed (for instance in JSON output):
      `Nil` is the nil slice, `Slice([])` an empty but allocated one. */
  datatype Slice<+T> = Nil | Slice(items: seq<T>) {
    /** The elements, reading a nil slice as empty, as Go's `range` and `len` do. */
    function Elements(): seq<T> {
      if Nil? then [] else items
    }
  }

  /** The outcome of Go code that can panic at run time. */
  datatype Run<+T> = Done(value: T) | Panic(reason: string)
}
