/** The errors a server handler ends with. */
module ApiErrors {
  /** An `ApiError` thrown with an HTTP status and a message, or a write the document store refused. */
  datatype HandlerError = ApiError(status: int, message: string) | StoreFailure
}
