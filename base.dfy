/** Values shared by every part of the model: the optional value used for
    lookups that may find nothing (findOne/findByPk returning null) and for
    request fields that may be absent, and the calendar date a DATEONLY
    column holds. */
module Base {
  datatype Option<T> = None | Some(value: T)

  datatype Date = Date(year: nat, month: nat, day: nat)
}
