/** The webhook verification handshake answered by GET / (app.js:57-65). */
module Verification {
  import opened Wrappers

  /** The three query parameters the platform sends; any of them may be
      missing from the query string. */
  datatype Query = Query(mode: Option<string>, token: Option<string>, challenge: Option<string>)

  datatype HttpResponse = HttpResponse(status: int, body: string)

  const Subscribe := "subscribe"

  /** `verifyToken` is the configured VERIFY_TOKEN, itself possibly unset
      (app.js:14). Both comparisons are JavaScript strict equality, under
      which two `undefined` values are equal (app.js:59). A missing challenge
      is sent as an empty body. */
  function Verify(q: Query, verifyToken: Option<string>): (r: HttpResponse)
    ensures r.status == 200 <==> q.mode == Some(Subscribe) && q.token == verifyToken
    ensures r.status == 200 ==> r.body == q.challenge.GetOr("")
    ensures r.status != 200 ==> r.status == 403 && r.body == ""
  {
    if q.mode == Some(Subscribe) && q.token == verifyToken then
      HttpResponse(200, q.challenge.GetOr(""))
    else
      HttpResponse(403, "")
  }

  /** With a token configured, only that exact token is accepted: a missing
      or different token, or any mode other than "subscribe", gets 403. */
  lemma ConfiguredTokenRequired(q: Query, t: string)
    requires q.token != Some(t) || q.mode != Some(Subscribe)
    ensures Verify(q, Some(t)) == HttpResponse(403, "")
  {
  }

  /** With VERIFY_TOKEN unset, a subscribe request that also omits
      hub.verify_token is accepted and its challenge echoed. */
  lemma UnsetTokenAcceptsMissingToken(challenge: string)
    ensures Verify(Query(Some(Subscribe), None, Some(challenge)), None) == HttpResponse(200, challenge)
  {
  }
}
