/** What the route handlers share: the reply they send and the default search query. */
module Gateway {
  import opened Wrappers
  import opened Types

  /** An HTTP reply: 200 with a JSON array of records, or 500 with `{ error: message }`. */
  datatype Reply = Ok200(videos: seq<Video>) | Err500(error: string)

  const DefaultQuery := "custom trucks"

  /** `searchParams.get('q') || 'custom trucks'`: an absent or empty query falls back to the default. */
  function EffectiveQuery(q: Option<string>): (query: string)
    ensures query != ""
    ensures q.Some? && q.value != "" ==> query == q.value
    ensures q.None? || q.value == "" ==> query == DefaultQuery
  {
    if q.Some? && q.value != "" then q.value else DefaultQuery
  }

  /** `response.ok`: the status is in the range 200-299. */
  predicate IsOkStatus(status: int) {
    200 <= status <= 299
  }
}
