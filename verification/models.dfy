/** The records exchanged between the handler, the service and the store
    (src/models/user.go). */
module Models {
  import opened Wrappers

  /** The five form fields of a registration, all plain strings. */
  datatype UserInput = UserInput(
    name: string,
    email: string,
    phone: string,
    collegeName: string,
    yearOfStudy: string)

  /** The envelope returned for every registration outcome. `data` is Go's
      `any`: nil, or the generated identifier on success. */
  datatype Response = Response(
    message: string,
    data: Option<string>,
    success: bool,
    error: string)
}
