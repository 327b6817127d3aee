/**
 * The module-syntax contact worker (cloudflare-worker/src/index.ts).
 *
 * `Fetch` is its request decision: preflight, method check, required
 * fields, email format, backup store, send. The outside calls are inputs:
 * the parsed body, whether the key-value store accepted the backup (false
 * when the put threw), and what the SendGrid request returned. The result
 * carries the response and the outside calls made on the way.
 */
module ContactWorker {
  import opened Wrappers
  import opened Http

  /** JavaScript's `\s` character class. */
  predicate IsSpace(c: char)
  {
    c == '\t' || c == '\n' || c == '\U{000B}' || c == '\U{000C}' || c == '\r' || c == ' ' ||
    c == '\U{00A0}' || c == '\U{1680}' || ('\U{2000}' <= c <= '\U{200A}') ||
    c == '\U{2028}' || c == '\U{2029}' || c == '\U{202F}' || c == '\U{205F}' ||
    c == '\U{3000}' || c == '\U{FEFF}'
  }

  /** The class `[^\s@]`. */
  predicate AddressChar(c: char)
  {
    !IsSpace(c) && c != '@'
  }

  predicate AllAddressChars(t: string)
  {
    forall k :: 0 <= k < |t| ==> AddressChar(t[k])
  }

  /** A '.' that is neither the first nor the last character. */
  predicate HasInnerDot(t: string)
  {
    exists k :: 0 < k < |t| - 1 && t[k] == '.'
  }

  /** The position of the first `c` at or after `from`. */
  function IndexOf(s: string, c: char, from: nat): (r: Option<nat>)
    requires from <= |s|
    ensures r.Some? ==> from <= r.value < |s| && s[r.value] == c &&
                        forall j :: from <= j < r.value ==> s[j] != c
    ensures r.None? ==> forall j :: from <= j < |s| ==> s[j] != c
    decreases |s| - from
  {
    if from == |s| then None
    else if s[from] == c then Some(from)
    else IndexOf(s, c, from + 1)
  }

  /** isValidEmail: split at the first '@'; the part before must be a
      non-empty run of `[^\s@]`, the part after a run of `[^\s@]` with a
      '.' inside it. */
  function IsValidEmail(email: string): bool
  {
    match IndexOf(email, '@', 0)
    case None => false
    case Some(at) =>
      0 < at && AllAddressChars(email[..at]) &&
      AllAddressChars(email[at + 1..]) && HasInnerDot(email[at + 1..])
  }

  /** The language of `^[^\s@]+@[^\s@]+\.[^\s@]+$`: three non-empty runs of
      `[^\s@]`, the first two joined by '@', the last two by '.'. */
  predicate MatchesEmailPattern(s: string)
  {
    exists a, d :: 0 < a && a + 1 < d && d + 1 < |s| && s[a] == '@' && s[d] == '.' &&
      AllAddressChars(s[..a]) && AllAddressChars(s[a + 1..d]) && AllAddressChars(s[d + 1..])
  }

  lemma AllAddressCharsConcat(t: string, u: string)
    ensures AllAddressChars(t + u) <==> AllAddressChars(t) && AllAddressChars(u)
  {
    if AllAddressChars(t) && AllAddressChars(u) {
      forall k | 0 <= k < |t + u| ensures AddressChar((t + u)[k]) {
        if k < |t| {
          assert (t + u)[k] == t[k];
        } else {
          assert (t + u)[k] == u[k - |t|];
        }
      }
    }
    if AllAddressChars(t + u) {
      forall k | 0 <= k < |t| ensures AddressChar(t[k]) {
        assert t[k] == (t + u)[k];
      }
      forall k | 0 <= k < |u| ensures AddressChar(u[k]) {
        assert u[k] == (t + u)[|t| + k];
      }
    }
  }

  /** With an '@' at `a` and none before it, the first '@' is at `a`. */
  lemma FirstAtIs(s: string, a: nat)
    requires a < |s| && s[a] == '@'
    requires forall j :: 0 <= j < a ==> s[j] != '@'
    ensures IndexOf(s, '@', 0) == Some(a)
  {
  }

  lemma ValidEmailMatches(s: string)
    requires IsValidEmail(s)
    ensures MatchesEmailPattern(s)
  {
    var at := IndexOf(s, '@', 0).value;
    var host := s[at + 1..];
    var k :| 0 < k < |host| - 1 && host[k] == '.';
    var d := at + 1 + k;
    assert host == host[..k] + ([host[k]] + host[k + 1..]);
    AllAddressCharsConcat(host[..k], [host[k]] + host[k + 1..]);
    AllAddressCharsConcat([host[k]], host[k + 1..]);
    assert s[at + 1..d] == host[..k];
    assert s[d + 1..] == host[k + 1..];
    assert s[d] == '.';
  }

  lemma MatchesIsValidEmail(s: string)
    requires MatchesEmailPattern(s)
    ensures IsValidEmail(s)
  {
    var a, d :| 0 < a && a + 1 < d && d + 1 < |s| && s[a] == '@' && s[d] == '.' &&
      AllAddressChars(s[..a]) && AllAddressChars(s[a + 1..d]) && AllAddressChars(s[d + 1..]);
    forall j | 0 <= j < a ensures s[j] != '@' {
      assert s[j] == s[..a][j];
    }
    FirstAtIs(s, a);
    var host := s[a + 1..];
    assert host == s[a + 1..d] + ([s[d]] + s[d + 1..]);
    assert AddressChar(s[d]);
    AllAddressCharsConcat([s[d]], s[d + 1..]);
    AllAddressCharsConcat(s[a + 1..d], [s[d]] + s[d + 1..]);
    assert host[d - (a + 1)] == '.';
  }

  /** isValidEmail accepts exactly the strings the regular expression matches. */
  lemma IsValidEmailMatchesPattern(s: string)
    ensures IsValidEmail(s) <==> MatchesEmailPattern(s)
  {
    if IsValidEmail(s) {
      ValidEmailMatches(s);
    }
    if MatchesEmailPattern(s) {
      MatchesIsValidEmail(s);
    }
  }

  predicate NoSpace(s: string)
  {
    forall k :: 0 <= k < |s| ==> !IsSpace(s[k])
  }

  /** One '@', at position `a`, with something before it and an inner '.'
      after it. */
  predicate SingleAtWithDottedHost(s: string, a: nat)
  {
    0 < a < |s| && s[a] == '@' && multiset(s)['@'] == 1 && HasInnerDot(s[a + 1..])
  }

  lemma ValidEmailHasSingleAt(s: string)
    requires IsValidEmail(s)
    ensures NoSpace(s) && SingleAtWithDottedHost(s, IndexOf(s, '@', 0).value)
  {
    var at := IndexOf(s, '@', 0).value;
    var front, back := s[..at], s[at + 1..];
    assert s == front + [s[at]] + back;
    assert '@' !in front by {
      forall j | 0 <= j < |front| ensures front[j] != '@' {
        assert AddressChar(front[j]);
      }
    }
    assert '@' !in back by {
      forall j | 0 <= j < |back| ensures back[j] != '@' {
        assert AddressChar(back[j]);
      }
    }
    assert multiset(s) == multiset(front) + multiset([s[at]]) + multiset(back);
    forall k | 0 <= k < |s| ensures !IsSpace(s[k]) {
      if k < at {
        assert s[k] == front[k];
      } else if k > at {
        assert s[k] == back[k - (at + 1)];
      }
    }
  }

  lemma SingleAtIsValidEmail(s: string, a: nat)
    requires NoSpace(s) && SingleAtWithDottedHost(s, a)
    ensures IsValidEmail(s)
  {
    var front, back := s[..a], s[a + 1..];
    assert s == front + [s[a]] + back;
    assert multiset(s) == multiset(front) + multiset([s[a]]) + multiset(back);
    assert multiset(front)['@'] == 0 && multiset(back)['@'] == 0;
    forall j | 0 <= j < a ensures s[j] != '@' {
      assert s[j] == front[j];
    }
    FirstAtIs(s, a);
    forall j | 0 <= j < |front| ensures AddressChar(front[j]) {
      assert front[j] == s[j];
    }
    forall j | 0 <= j < |back| ensures AddressChar(back[j]) {
      assert back[j] == s[a + 1 + j];
      assert back[j] in multiset(back);
    }
  }

  /** isValidEmail in plain terms: no whitespace anywhere, exactly one '@',
      something before it, and a '.' after it that is neither the first nor
      the last character of the part after it. */
  lemma IsValidEmailCharacterisation(s: string)
    ensures IsValidEmail(s) <==> NoSpace(s) && exists a :: SingleAtWithDottedHost(s, a)
  {
    if IsValidEmail(s) {
      ValidEmailHasSingleAt(s);
    }
    if NoSpace(s) && exists a :: SingleAtWithDottedHost(s, a) {
      var a :| SingleAtWithDottedHost(s, a);
      SingleAtIsValidEmail(s, a);
    }
  }

  /** A string without '@' is never a valid address. */
  lemma NoAtIsInvalid(s: string)
    requires '@' !in s
    ensures !IsValidEmail(s)
  {
  }

  /** Strings the validator accepts: a plain address, and one whose host has
      two dots in a row (the pattern allows it). */
  lemma IsValidEmailAccepts()
    ensures IsValidEmail("jo@example.com")
    ensures IsValidEmail("a@b..c")
  {
    var s, t := "jo@example.com", "a@b..c";
    FirstAtIs(s, 2);
    assert s[3..][7] == '.';
    FirstAtIs(t, 1);
    assert t[2..][1] == '.';
  }

  /** Strings the validator rejects for a missing part: no dot after the
      '@', nothing before the '@', a dot right after the '@'. */
  lemma IsValidEmailRejectsMissingParts()
    ensures !IsValidEmail("jo@example")
    ensures !IsValidEmail("@example.com")
    ensures !IsValidEmail("jo@.com")
  {
    FirstAtIs("jo@example", 2);
    FirstAtIs("@example.com", 0);
    FirstAtIs("jo@.com", 2);
  }

  /** Strings the validator rejects for a forbidden character: a space, a
      second '@'. */
  lemma IsValidEmailRejectsForbiddenChars()
    ensures !IsValidEmail("jo smith@example.com")
    ensures !IsValidEmail("jo@x@example.com")
  {
    FirstAtIs("jo smith@example.com", 8);
    assert IsSpace("jo smith@example.com"[2]);
    FirstAtIs("jo@x@example.com", 2);
    assert "jo@x@example.com"[3..][1] == '@';
  }

  /** The worker's configuration; "" stands for an unset variable. */
  datatype Env = Env(emailService: string, apiKey: string)

  /** The service in use: the configured one, SendGrid when unset. */
  function ServiceName(env: Env): string
  {
    if env.emailService == "" then "sendgrid" else env.emailService
  }

  /** Whether sendEmail goes on to call SendGrid. */
  predicate ReachesSendGrid(env: Env)
  {
    env.apiKey != "" && ServiceName(env) == "sendgrid"
  }

  /** sendEmail; `sendGrid` is what the SendGrid request would return. */
  function SendEmail(env: Env, sendGrid: SendResult): (r: SendResult)
    ensures env.apiKey == "" ==> r == SendFailed("Email service not configured")
    ensures env.apiKey != "" && ServiceName(env) != "sendgrid" ==> r == SendFailed("Unsupported email service")
    ensures r.Sent? <==> ReachesSendGrid(env) && sendGrid.Sent?
    ensures ReachesSendGrid(env) ==> r == sendGrid
  {
    var emailService := ServiceName(env);
    if env.apiKey == "" then SendFailed("Email service not configured")
    else if emailService == "sendgrid" then sendGrid
    else SendFailed("Unsupported email service")
  }

  /** The outside calls the worker makes. */
  datatype Effect = StoreSubmission | SendGridRequest

  datatype Outcome = Outcome(response: Response, effects: seq<Effect>)

  /** A submission that passes both validations. */
  predicate ValidForm(f: ContactForm)
  {
    HasRequiredFields(f) && IsValidEmail(f.email.value)
  }

  /** The worker's fetch handler. `stored` says whether the backup put
      succeeded; `sendGrid` is what the SendGrid request returns. */
  function Fetch(httpMethod: string, body: RequestBody, env: Env, stored: bool, sendGrid: SendResult): (r: Outcome)
    ensures httpMethod == "OPTIONS" ==> r == Outcome(Preflight(), [])
    ensures r.response.status in {200, 204, 400, 405, 500}
    ensures r.response.status == 204 <==> httpMethod == "OPTIONS"
    ensures r.response.status == 405 <==> httpMethod != "OPTIONS" && httpMethod != "POST"
    ensures r.response.status == 400 <==> httpMethod == "POST" && body.Json? && !ValidForm(body.form)
    ensures r.response.status == 200 <==>
      httpMethod == "POST" && body.Json? && ValidForm(body.form) && stored && SendEmail(env, sendGrid).Sent?
    ensures httpMethod == "POST" && body.Json? && !HasRequiredFields(body.form) ==>
      r.response.body == JsonError("Missing required fields")
    ensures httpMethod == "POST" && body.Json? && HasRequiredFields(body.form) && !IsValidEmail(body.form.email.value) ==>
      r.response.body == JsonError("Invalid email format")
    ensures r.effects != [] ==> httpMethod == "POST" && body.Json? && ValidForm(body.form) && r.effects[0] == StoreSubmission
    ensures SendGridRequest in r.effects <==>
      httpMethod == "POST" && body.Json? && ValidForm(body.form) && stored && ReachesSendGrid(env)
    ensures r.response.status == 500 && r.effects != [] && stored ==> r.response.body == JsonError("Failed to send email")
    ensures r.response.status == 500 && (r.effects == [] || !stored) ==> r.response.body == JsonError("Internal server error")
    ensures r.effects != [] <==> httpMethod == "POST" && body.Json? && ValidForm(body.form)
    ensures r.response.status == 200 ==> r.response == JsonResponse(JsonSuccess, 200)
    ensures r.response.status == 405 ==> r.response == PlainResponse("Method not allowed", 405)
    ensures r.response.status in {400, 500} ==> r.response == JsonResponse(r.response.body, r.response.status)
  {
    if httpMethod == "OPTIONS" then Outcome(Preflight(), [])
    else if httpMethod != "POST" then Outcome(PlainResponse("Method not allowed", 405), [])
    else match body
      case Malformed => Outcome(JsonResponse(JsonError("Internal server error"), 500), [])
      case JsonNull => Outcome(JsonResponse(JsonError("Internal server error"), 500), [])
      case Json(data) =>
        if !HasRequiredFields(data) then Outcome(JsonResponse(JsonError("Missing required fields"), 400), [])
        else if !IsValidEmail(data.email.value) then Outcome(JsonResponse(JsonError("Invalid email format"), 400), [])
        else if !stored then Outcome(JsonResponse(JsonError("Internal server error"), 500), [StoreSubmission])
        else
          var effects := [StoreSubmission] + (if ReachesSendGrid(env) then [SendGridRequest] else []);
          if SendEmail(env, sendGrid).Sent? then Outcome(JsonResponse(JsonSuccess, 200), effects)
          else Outcome(JsonResponse(JsonError("Failed to send email"), 500), effects)
  }

  /** A rejected submission (status 400) neither stores nor sends anything,
      and its answer carries the CORS headers. */
  lemma RejectedSubmissionHasNoEffects(httpMethod: string, body: RequestBody, env: Env, stored: bool, sendGrid: SendResult)
    requires Fetch(httpMethod, body, env, stored, sendGrid).response.status == 400
    ensures Fetch(httpMethod, body, env, stored, sendGrid).effects == []
    ensures forall h :: h in CorsHeaders ==> h in Fetch(httpMethod, body, env, stored, sendGrid).response.headers
  {
  }
}
