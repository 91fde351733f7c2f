/**
 * What the catalog service's calls can come back with. The calls themselves (HTTP,
 * credentials, JSON decoding) are not modelled: a view method receives the service as
 * functions from the request to one of these replies.
 */
module Service {
  import opened Wrappers
  import opened Domain

  /** `GET /dogs/search`: result ids and the opaque next/prev page tokens, or a thrown error. */
  datatype SearchReply =
    | SearchOk(resultIds: seq<DogId>, next: Option<string>, prev: Option<string>)
    | SearchFailed(message: Option<string>)

  /** `POST /dogs` through axios: the dog records, or a thrown error. */
  datatype ResolveReply =
    | Resolved(dogs: seq<Dog>)
    | ResolveFailed(message: Option<string>)

  /**
   * `err.response?.data?.message || fallback`: the server's message when there is a
   * non-empty one, the fallback text otherwise.
   */
  function ErrorText(message: Option<string>, fallback: string): (r: string)
    requires fallback != ""
    ensures r != ""
    ensures r == fallback || message == Some(r)
    ensures message.Some? && message.value != "" ==> r == message.value
  {
    if message.Some? && message.value != "" then message.value else fallback
  }
}
