/**
 * lib/twilio.ts: the WhatsApp sender. The module-level client and sender
 * number are the `Twilio` value built once from the environment; the SDK
 * call is the `ApiOutcome` argument.
 */
module Twilio {
  import opened Wrappers
  import opened Text
  import opened Orders
  import opened Http

  const PREFIX: string := "whatsapp:"

  /** The three environment variables the module reads when it loads. */
  datatype TwilioEnv = TwilioEnv(accountSid: Option<string>, authToken: Option<string>, whatsappNumber: Option<string>)

  /** Module state: whether a client exists, and the sender number with all whitespace removed. */
  datatype TwilioState = TwilioState(hasClient: bool, whatsappFrom: Option<string>)

  /**
   * Loading the module: a client only when both credentials are non-empty
   * and the SDK constructor does not throw.
   */
  function Load(env: TwilioEnv, constructorSucceeds: bool): (t: TwilioState)
    ensures t.hasClient <==> Truthy(env.accountSid) && Truthy(env.authToken) && constructorSucceeds
    ensures t.whatsappFrom.Some? <==> env.whatsappNumber.Some?
    ensures t.whatsappFrom.Some? ==> t.whatsappFrom.value == RemoveWhitespace(env.whatsappNumber.value)
  {
    TwilioState(
      Truthy(env.accountSid) && Truthy(env.authToken) && constructorSucceeds,
      if env.whatsappNumber.Some? then Some(RemoveWhitespace(env.whatsappNumber.value)) else None)
  }

  /** `isTwilioConfigured`. */
  predicate IsConfigured(t: TwilioState) {
    t.hasClient && Truthy(t.whatsappFrom)
  }

  /** `ensureWhatsAppPrefix`. */
  function EnsureWhatsAppPrefix(number: string): (r: string)
    ensures StartsWith(r, PREFIX)
    ensures StartsWith(number, PREFIX) ==> r == number
    ensures !StartsWith(number, PREFIX) ==> r == PREFIX + number
  {
    if StartsWith(number, PREFIX) then number else PREFIX + number
  }

  /** Prefixing twice is prefixing once. */
  lemma PrefixIdempotent(number: string)
    ensures EnsureWhatsAppPrefix(EnsureWhatsAppPrefix(number)) == EnsureWhatsAppPrefix(number)
  {
  }

  /** What the SDK's `messages.create` does: returns a message id, or throws an error with an optional numeric code. */
  datatype ApiOutcome = Sent(sid: string) | ApiError(code: Option<int>, message: string)

  const NO_CLIENT: string := "Twilio client is not initialized. Check TWILIO_ACCOUNT_SID and TWILIO_AUTH_TOKEN"
  const NO_SENDER: string := "TWILIO_WHATSAPP_NUMBER is not configured. Please set this environment variable."
  const SAME_NUMBER: string := "TWILIO_WHATSAPP_NUMBER appears to be the same as the recipient number. Set `TWILIO_WHATSAPP_NUMBER` to your Twilio WhatsApp sandbox number (e.g. whatsapp:+14155238886) or your Twilio-enabled WhatsApp sender, not the admin's personal number."
  const INVALID_TO: string := "Invalid 'To' phone number. Please check the recipient number format."
  const NOT_IN_SANDBOX: string := "Recipient has not joined the Twilio WhatsApp sandbox. Please send 'join <sandbox-keyword>' to the Twilio WhatsApp number first."
  const INVALID_FROM: string := "Invalid 'From' phone number. Please check TWILIO_WHATSAPP_NUMBER format."

  /** The message of the error the catch block rethrows. */
  function MapSendError(code: Option<int>, message: string): (m: string)
    ensures code == Some(21211) ==> m == INVALID_TO
    ensures code == Some(21608) ==> m == NOT_IN_SANDBOX
    ensures code == Some(21212) ==> m == INVALID_FROM
    ensures code !in {Some(21211), Some(21608), Some(21212)} ==>
      m == "Twilio error: " + MessageOr(message, "Unknown error")
  {
    if code == Some(21211) then INVALID_TO
    else if code == Some(21608) then NOT_IN_SANDBOX
    else if code == Some(21212) then INVALID_FROM
    else "Twilio error: " + MessageOr(message, "Unknown error")
  }

  /** The sender and recipient addresses: both prefixed, the recipient stripped of whitespace. */
  function Addresses(from: string, to: string): (string, string) {
    (EnsureWhatsAppPrefix(from), EnsureWhatsAppPrefix(RemoveWhitespace(to)))
  }

  /**
   * `sendWhatsAppMessage`: the message id, or the message of the error it
   * throws. The API is called only when both guards pass and the two
   * addresses differ.
   */
  function SendWhatsAppMessage(t: TwilioState, to: string, api: ApiOutcome): (r: Result<string, string>)
    ensures !t.hasClient ==> r == Err(NO_CLIENT)
    ensures t.hasClient && !Truthy(t.whatsappFrom) ==> r == Err(NO_SENDER)
    ensures r.Ok? ==>
      (&& IsConfigured(t) && api.Sent? && r.value == api.sid
       && Addresses(t.whatsappFrom.value, to).0 != Addresses(t.whatsappFrom.value, to).1)
    ensures IsConfigured(t) && Addresses(t.whatsappFrom.value, to).0 == Addresses(t.whatsappFrom.value, to).1 ==>
      r == Err("Twilio error: " + SAME_NUMBER)
    ensures IsConfigured(t) && Addresses(t.whatsappFrom.value, to).0 != Addresses(t.whatsappFrom.value, to).1 ==>
      && (api.Sent? ==> r == Ok(api.sid))
      && (api.ApiError? ==> r == Err(MapSendError(api.code, api.message)))
  {
    if !t.hasClient then Err(NO_CLIENT)
    else if !Truthy(t.whatsappFrom) then Err(NO_SENDER)
    else
      var (fromNumber, toNumber) := Addresses(t.whatsappFrom.value, to);
      if fromNumber == toNumber then Err(MapSendError(None, SAME_NUMBER))
      else match api
        case Sent(sid) => Ok(sid)
        case ApiError(code, message) => Err(MapSendError(code, message))
  }

  /** The recipient's whitespace never matters: a spaced-out number reaches the same address. */
  lemma RecipientWhitespace(t: TwilioState, to: string, api: ApiOutcome)
    ensures SendWhatsAppMessage(t, to, api) == SendWhatsAppMessage(t, RemoveWhitespace(to), api)
  {
    RemoveWhitespaceIdempotent(to);
  }

  lemma {:induction false} RemoveWhitespaceIdempotent(s: string)
    ensures RemoveWhitespace(RemoveWhitespace(s)) == RemoveWhitespace(s)
  {
    if s != [] {
      RemoveWhitespaceIdempotent(s[1..]);
      if !IsJsWhitespace(s[0]) {
        assert RemoveWhitespace(s) == [s[0]] + RemoveWhitespace(s[1..]);
      }
    }
  }
}
