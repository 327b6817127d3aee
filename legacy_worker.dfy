/**
 * The service-worker-syntax contact worker (cloudflare-worker.js).
 *
 * `HandleRequest` is its request decision: preflight, method check, the
 * `/contact` path, required fields (no email-format check in this variant),
 * then the send, with every exception inside the `/contact` branch turned
 * into 400 "Invalid request". Its configuration lives in the global
 * bindings EMAIL_SERVICE and API_KEY; reading a binding that was never
 * defined throws, which lands in that same catch.
 */
module LegacyContactWorker {
  import opened Wrappers
  import opened Http
  import ContactWorker

  /** A global binding of the worker: never defined, or defined to a string
      ("" is defined but falsy). */
  datatype Binding = Unbound | Bound(value: string)

  /** How a send attempt ends: with a result, or by throwing. */
  datatype Completion = Returned(result: SendResult) | Threw

  /** sendWithSendGrid; `sendGrid` is what the SendGrid request returns (that
      request catches its own failures). */
  function SendWithSendGrid(apiKey: Binding, sendGrid: SendResult): Completion
  {
    match apiKey
    case Unbound => Threw
    case Bound(key) =>
      if key == "" then Returned(SendFailed("SendGrid API key not configured")) else Returned(sendGrid)
  }

  /** sendWithMailgun: checks the key and reports success without sending. */
  function SendWithMailgun(apiKey: Binding): Completion
  {
    match apiKey
    case Unbound => Threw
    case Bound(key) =>
      if key == "" then Returned(SendFailed("Mailgun API key not configured")) else Returned(Sent)
  }

  /** The service in use: the configured one, SendGrid when it is "". */
  function ServiceName(service: string): string
  {
    if service == "" then "sendgrid" else service
  }

  /** sendEmail: dispatch on the service name. */
  function SendEmail(emailService: Binding, apiKey: Binding, sendGrid: SendResult): (r: Completion)
    ensures r == Threw <==>
      emailService.Unbound? ||
      (ServiceName(emailService.value) in {"sendgrid", "mailgun"} && apiKey.Unbound?)
    ensures emailService.Bound? && ServiceName(emailService.value) !in {"sendgrid", "mailgun"} ==>
      r == Returned(SendFailed("Email service not configured"))
    ensures emailService.Bound? && ServiceName(emailService.value) == "sendgrid" && apiKey.Bound? ==>
      r == Returned(if apiKey.value == "" then SendFailed("SendGrid API key not configured") else sendGrid)
    ensures emailService.Bound? && ServiceName(emailService.value) == "mailgun" && apiKey.Bound? ==>
      r == Returned(if apiKey.value == "" then SendFailed("Mailgun API key not configured") else Sent)
    ensures r == Returned(Sent) <==>
      emailService.Bound? && apiKey.Bound? && apiKey.value != "" &&
      (ServiceName(emailService.value) == "mailgun" ||
       (ServiceName(emailService.value) == "sendgrid" && sendGrid.Sent?))
  {
    match emailService
    case Unbound => Threw
    case Bound(service) =>
      var name := ServiceName(service);
      if name == "sendgrid" then SendWithSendGrid(apiKey, sendGrid)
      else if name == "mailgun" then SendWithMailgun(apiKey)
      else Returned(SendFailed("Email service not configured"))
  }

  /** Mailgun with a key reports success whatever SendGrid would have said:
      nothing is sent. */
  lemma MailgunSucceedsWithoutSending(apiKey: string, sendGrid: SendResult)
    requires apiKey != ""
    ensures SendEmail(Bound("mailgun"), Bound(apiKey), sendGrid) == Returned(Sent)
  {
  }

  /** What the catch turns every exception into. */
  function InvalidRequest(): Response
  {
    JsonResponse(JsonError("Invalid request"), 400)
  }

  /** The handler. The body, the two bindings and the SendGrid result are
      inputs. */
  function HandleRequest(httpMethod: string, url: string, body: RequestBody,
                         emailService: Binding, apiKey: Binding, sendGrid: SendResult): (r: Response)
    ensures httpMethod == "OPTIONS" ==> r == Preflight()
    ensures r.status in {200, 204, 400, 404, 405, 500}
    ensures r.status == 204 <==> httpMethod == "OPTIONS"
    ensures r.status == 405 <==> httpMethod != "OPTIONS" && httpMethod != "POST"
    ensures r.status == 404 <==> httpMethod == "POST" && !EndsWith(url, "/contact")
    ensures r.status == 404 ==> r.body == Text("Not found")
    ensures r.status == 400 <==>
      httpMethod == "POST" && EndsWith(url, "/contact") &&
      (!body.Json? || !HasRequiredFields(body.form) || SendEmail(emailService, apiKey, sendGrid) == Threw)
    ensures httpMethod == "POST" && EndsWith(url, "/contact") && body.Json? && !HasRequiredFields(body.form) ==>
      r == JsonResponse(JsonError("Missing required fields"), 400)
    ensures r.status == 400 && r != JsonResponse(JsonError("Missing required fields"), 400) ==> r == InvalidRequest()
    ensures r.status == 200 <==>
      httpMethod == "POST" && EndsWith(url, "/contact") && body.Json? && HasRequiredFields(body.form) &&
      SendEmail(emailService, apiKey, sendGrid) == Returned(Sent)
    ensures r.status == 500 ==>
      SendEmail(emailService, apiKey, sendGrid).Returned? &&
      SendEmail(emailService, apiKey, sendGrid).result.SendFailed? &&
      r.body == JsonError(SendEmail(emailService, apiKey, sendGrid).result.error)
    ensures (httpMethod == "POST" && EndsWith(url, "/contact") &&
             (!body.Json? || (HasRequiredFields(body.form) && SendEmail(emailService, apiKey, sendGrid) == Threw)))
      ==> r == InvalidRequest()
    ensures r.status == 200 ==> r == JsonResponse(JsonSuccess, 200)
    ensures r.status == 405 ==> r == PlainResponse("Method not allowed", 405)
    ensures r.status in {400, 500} ==> r == JsonResponse(r.body, r.status)
  {
    if httpMethod == "OPTIONS" then Preflight()
    else if httpMethod != "POST" then PlainResponse("Method not allowed", 405)
    else if EndsWith(url, "/contact") then
      match body
      case Malformed => InvalidRequest()
      case JsonNull => InvalidRequest()
      case Json(data) =>
        if !HasRequiredFields(data) then JsonResponse(JsonError("Missing required fields"), 400)
        else
          match SendEmail(emailService, apiKey, sendGrid)
          case Threw => InvalidRequest()
          case Returned(Sent) => JsonResponse(JsonSuccess, 200)
          case Returned(SendFailed(error)) => JsonResponse(JsonError(error), 500)
    else PlainResponse("Not found", 404)
  }

  /** This variant makes no email-format check: with Mailgun configured, a
      submission whose email is "not-an-email" is answered 200. */
  lemma NoEmailFormatCheck(url: string, apiKey: string, sendGrid: SendResult)
    requires EndsWith(url, "/contact") && apiKey != ""
    ensures var form := ContactForm(Some("Jo"), Some("not-an-email"), Some("Hello"), Some("team@example.com"));
      HandleRequest("POST", url, Json(form), Bound("mailgun"), Bound(apiKey), sendGrid).status == 200
  {
  }

  /** Without the API_KEY binding, any complete submission to SendGrid or
      Mailgun ends in the catch: 400 "Invalid request", not 500. */
  lemma UnboundKeyIsInvalidRequest(url: string, service: string, form: ContactForm, sendGrid: SendResult)
    requires EndsWith(url, "/contact") && HasRequiredFields(form)
    requires ServiceName(service) in {"sendgrid", "mailgun"}
    ensures HandleRequest("POST", url, Json(form), Bound(service), Unbound, sendGrid) == InvalidRequest()
  {
  }

  /** The two workers disagree on a malformed address: for the same complete
      submission the module worker answers 400 "Invalid email format" and
      stores nothing, while this one answers 200 with Mailgun configured. */
  lemma VariantsDisagreeOnEmailFormat(apiKey: string, stored: bool, sendGrid: SendResult)
    requires apiKey != ""
    ensures var form := ContactForm(Some("Jo"), Some("not-an-email"), Some("Hello"), Some("team@example.com"));
      var modern := ContactWorker.Fetch("POST", Json(form), ContactWorker.Env("mailgun", apiKey), stored, sendGrid);
      modern.response == JsonResponse(JsonError("Invalid email format"), 400) && modern.effects == [] &&
      HandleRequest("POST", "https://example.com/contact", Json(form), Bound("mailgun"), Bound(apiKey), sendGrid).status == 200
  {
    var form := ContactForm(Some("Jo"), Some("not-an-email"), Some("Hello"), Some("team@example.com"));
    ContactWorker.NoAtIsInvalid("not-an-email");
    assert !ContactWorker.ValidForm(form);
    assert EndsWith("https://example.com/contact", "/contact");
  }
}
