/**
 * Response shapes and request pieces shared by the two contact-form workers.
 *
 * A response is reduced to its status, a tag for its body and its headers.
 * What the runtime hands a worker (the parsed JSON body) is an input value.
 */
module Http {
  import opened Wrappers

  datatype Body =
    | NoBody
    | Text(text: string)
    | JsonSuccess
    | JsonError(error: string)

  type Header = (string, string)

  datatype Response = Response(status: nat, body: Body, headers: seq<Header>)

  /** The cross-origin headers every JSON response and the preflight carry. */
  const CorsHeaders: seq<Header> := [
    ("Access-Control-Allow-Origin", "*"),
    ("Access-Control-Allow-Methods", "GET, POST, OPTIONS"),
    ("Access-Control-Allow-Headers", "Content-Type")
  ]

  /** How long a browser may cache the preflight answer, in seconds. */
  const PreflightMaxAge: Header := ("Access-Control-Max-Age", "86400")

  /** jsonResponse: a JSON body with the given status and the CORS headers. */
  function JsonResponse(body: Body, status: nat): Response
  {
    Response(status, body, [("Content-Type", "application/json")] + CorsHeaders)
  }

  /** handleCORS: the answer to a preflight request. */
  function Preflight(): (r: Response)
    ensures r.status == 204 && r.body == NoBody
    ensures PreflightMaxAge in r.headers
    ensures forall h :: h in CorsHeaders ==> h in r.headers
  {
    Response(204, NoBody, CorsHeaders + [PreflightMaxAge])
  }

  /** A plain-text response without extra headers. */
  function PlainResponse(text: string, status: nat): Response
  {
    Response(status, Text(text), [])
  }

  /** JavaScript truthiness of an optional string field: present and not "". */
  predicate Truthy(v: Option<string>)
  {
    v.Some? && v.value != ""
  }

  predicate EndsWith(s: string, suffix: string)
  {
    |suffix| <= |s| && s[|s| - |suffix|..] == suffix
  }

  /** The fields of a contact submission; None for a missing field. */
  datatype ContactForm = ContactForm(
    name: Option<string>,
    email: Option<string>,
    message: Option<string>,
    recipient: Option<string>)

  /** What `request.json()` yields: a parse failure, the JSON value `null`
      (reading a field of it throws), or an object's fields. */
  datatype RequestBody = Malformed | JsonNull | Json(form: ContactForm)

  /** The required-fields check both workers make first. */
  predicate HasRequiredFields(f: ContactForm)
  {
    Truthy(f.name) && Truthy(f.email) && Truthy(f.message) && Truthy(f.recipient)
  }

  /** The outcome of an attempt to send the email. */
  datatype SendResult = Sent | SendFailed(error: string)
}
