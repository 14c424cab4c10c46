/**
 * The records the core passes between layers (`models.User`, `models.App`).
 * Their package is not part of this model; the fields are the ones the core
 * reads and writes.
 */
module Models {

  type Bytes = seq<bv8>

  datatype User = User(id: int, email: string, name: string, passHash: Bytes)

  datatype App = App(id: int, name: string, secret: string)

  /** Go's zero values `models.User{}` and `models.App{}`. */
  const ZeroUser := User(0, "", "", [])
  const ZeroApp := App(0, "", "")
}
