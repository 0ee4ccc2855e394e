/** Small value types shared by every module: Go's nil-able pointers become
    `Option`, a `uuid.UUID` becomes an identifier compared only for equality, and `time.Time`
    becomes integer nanoseconds. */
module Base {

  /** `None` plays the role of a nil pointer. */
  datatype Option<+T> = None | Some(value: T)

  /** A `uuid.UUID`. Only equality and the all-zero value (`uuid.Nil`) matter. */
  datatype Uuid = Uuid(value: nat)

  const NilUuid: Uuid := Uuid(0)

  /** Nanoseconds; the zero value stands for Go's zero `time.Time`. */
  type Time = int
}
