/** The JSON responses the handlers write: a status code and either a single-entry
    `{"error": …}` object or a user; and the `{"message": …}` object Echo's default error
    handler writes, as it does when `middleware.Recover` catches a panic. */
module Http {
  import opened Users

  const StatusOK := 200
  const StatusCreated := 201
  const StatusBadRequest := 400
  const StatusNotFound := 404
  const StatusInternalServerError := 500

  datatype Body = ErrorJson(error: string) | UserJson(user: User) | MessageJson(message: string)

  /** Echo's answer to a handler that panicked, once `middleware.Recover` has caught it. */
  const RecoveredPanic := Response(StatusInternalServerError, MessageJson("Internal Server Error"))

  datatype Response = Response(status: int, body: Body)
}
