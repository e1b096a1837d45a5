/** Values shared by all modules. */
module Common {
  newtype Byte = x: int | 0 <= x < 256

  /** What the source returns as a Rust `Option`. */
  datatype Option<+T> = None | Some(value: T)

  /** Whether the operating system fails the operation at hand, if it ever does. */
  method Fails(faulty: bool) returns (fault: bool)
    ensures fault ==> faulty
  {
    fault :| fault ==> faulty;
  }
}
