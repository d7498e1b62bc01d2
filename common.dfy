/** Small value types shared by the modules of this project. */
module Common {

  /** A value that may be absent: a C# `null` or a missing key. */
  datatype Option<+T> = None | Some(value: T)

  /** A 128-bit globally unique identifier (`System.Guid`). */
  datatype Guid = Guid(bits: bv128)
}
