/** Types shared by every route handler of the backend. */
module Common {

  datatype Option<+T> = None | Some(value: T)

  /** A user's `_id`; authentication that produces it is outside the model. */
  type UserId = nat

  /** A workout's `_id`. */
  type WorkoutId = nat

  /** A `Date.now` reading in milliseconds, supplied by the caller. */
  type Timestamp = int

  /** What a handler sends: a JSON body with status 200, or an error status with its `error` text. */
  datatype Response<+B> = Success(body: B) | Failure(status: nat, error: string)

  /** How the database writes of one request fare: all succeed, the record write
      (`save` or the first update) throws, or the `$inc` of the balance throws. */
  datatype Storage = Healthy | RecordWriteFails | CreditWriteFails

  /** The prompt sent to the AI service; only which prompt is chosen is modelled. */
  datatype Prompt = XrayPrompt | PrescriptionPrompt | MoodPrompt(entry: string)

  /** What one call to the AI service yields: the request throws, the body is not
      JSON, or it has no first content block; the service answers with a non-2xx
      status; or the string text of the first content block. */
  datatype Reply = TransportError | NotOk | Answered(text: string)
}
