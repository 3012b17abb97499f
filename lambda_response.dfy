/** What the event lambdas hand back to EventBridge: a status code and a JSON body with a
    `message` and, on failure, the `error` message of what was thrown. */
module LambdaResponse {
  import opened Wrappers

  /** Where a thrown error came from: a call the handler made that threw with that message,
      or the database driver (connection or statement failure), whose message is not modelled. */
  datatype Cause = Thrown(message: string) | DriverError

  datatype Response = Response(statusCode: int, message: string, error: Option<Cause>)

  const PROCESSING_ERROR: string := "Error processing EventBridge event"

  /** `${event}` of the event object in the transcode handlers' messages. */
  const EVENT_TEXT: string := "[object Object]"

  /** The reply to a handler that threw. */
  function Failure(cause: Cause): Response
  {
    Response(500, PROCESSING_ERROR, Some(cause))
  }
}
