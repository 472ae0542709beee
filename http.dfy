/** HTTP replies and the outcome of calling a collaborator that may throw. */
module Http {

  const StatusOk := 200
  const StatusAccepted := 202
  const StatusBadRequest := 400
  const StatusNotFound := 404
  const StatusConflict := 409
  const StatusInternalServerError := 500
  const StatusServiceUnavailable := 503

  /** A `ResponseEntity`: a status code and a body. */
  datatype Reply<B> = Reply(status: int, body: B)

  /** The Java exceptions the model distinguishes, with their messages. */
  datatype Exception =
    | IllegalArgumentException(message: string)
    | RuntimeException(message: string)

  /** What a call returned, or the exception it threw. */
  datatype Call<T> = Returned(value: T) | Threw(exception: Exception)
}
