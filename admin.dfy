/**
 * lib/admin.ts: one-time passwords for the single admin mobile number, kept
 * in an in-memory map, and the admin session token.
 */
module Admin {
  import opened Wrappers
  import opened Text
  import opened Orders
  import opened Http
  import opened Twilio
  import opened Base64

  const ADMIN_MOBILE: string := "7264820796"
  /** Five minutes. */
  const OTP_EXPIRY_MS: int := 5 * 60 * 1000

  datatype OtpData = OtpData(otp: string, mobile: string, expiresAt: int)

  /** The object `sendOTP` resolves to. */
  datatype SendOtpResult = SendOtpResult(success: bool, error: Option<string>, demoOtp: Option<string>)

  const NOT_REGISTERED: string := "Mobile number not registered"
  const NOT_CONFIGURED: string := "Twilio WhatsApp is not configured. Please contact administrator."

  /** `generateOTP`: `Math.floor(100000 + r * 900000)` for `0 <= r < 1` is a code in this range. */
  predicate IsOtpCode(code: int) {
    100000 <= code <= 999999
  }

  /** The text of a generated code: always six digits. */
  lemma OtpText(code: int)
    requires IsOtpCode(code)
    ensures |NatToString(code)| == 6 && AllDigits(NatToString(code))
  {
    NatToStringLength(code, 5);
  }

  /** The WhatsApp address an OTP goes to. */
  function AdminWhatsApp(normalizedMobile: string): string {
    "whatsapp:+91" + normalizedMobile
  }

  function SendFailure(message: string): string {
    "Failed to send OTP via WhatsApp: " + MessageOr(message, "Unknown error") + ". Please check your Twilio configuration."
  }

  // ---------------------------------------------------------------------------
  // The OTP map as a value: what `sendOTP` and `verifyOTP` do to it

  /** The map after `sendOTP`: a registered number gets a fresh entry, replacing any earlier one. */
  function AfterSend(otps: map<string, OtpData>, mobile: string, code: int, nowMs: int): (r: map<string, OtpData>)
    ensures Digits(mobile) != ADMIN_MOBILE ==> r == otps
    ensures Digits(mobile) == ADMIN_MOBILE ==>
      r.Keys == otps.Keys + {ADMIN_MOBILE} && r[ADMIN_MOBILE].expiresAt == nowMs + OTP_EXPIRY_MS
  {
    var normalized := Digits(mobile);
    if normalized != ADMIN_MOBILE then otps
    else otps[normalized := OtpData(IntToString(code), normalized, nowMs + OTP_EXPIRY_MS)]
  }

  /** Whether `verifyOTP` answers true: an entry exists, has not expired, and holds exactly this code. */
  predicate Accepts(otps: map<string, OtpData>, mobile: string, otp: string, nowMs: int) {
    var normalized := Digits(mobile);
    normalized in otps && nowMs <= otps[normalized].expiresAt && otps[normalized].otp == otp
  }

  /** The map after `verifyOTP`: the entry goes when it has expired or when it is used; a wrong code leaves it. */
  function AfterVerify(otps: map<string, OtpData>, mobile: string, otp: string, nowMs: int): (r: map<string, OtpData>)
    ensures Accepts(otps, mobile, otp, nowMs) ==> r == otps - {Digits(mobile)}
    ensures Digits(mobile) in otps && nowMs > otps[Digits(mobile)].expiresAt ==> r == otps - {Digits(mobile)}
    ensures Digits(mobile) in otps && nowMs <= otps[Digits(mobile)].expiresAt && otps[Digits(mobile)].otp != otp ==>
      r == otps
    ensures Digits(mobile) !in otps ==> r == otps
  {
    var normalized := Digits(mobile);
    if normalized !in otps then otps
    else if nowMs > otps[normalized].expiresAt then otps - {normalized}
    else if otps[normalized].otp != otp then otps
    else otps - {normalized}
  }

  /** A code works once: after a successful check, the same number fails whatever is sent next. */
  lemma SingleUse(otps: map<string, OtpData>, mobile: string, otp: string, nowMs: int, mobile2: string, otp2: string, nowMs2: int)
    requires Accepts(otps, mobile, otp, nowMs)
    requires Digits(mobile2) == Digits(mobile)
    ensures !Accepts(AfterVerify(otps, mobile, otp, nowMs), mobile2, otp2, nowMs2)
  {
  }

  /** A code sent to the admin number is accepted, from a number written any way, until it expires. */
  lemma SendThenVerify(otps: map<string, OtpData>, mobile: string, code: int, nowMs: int, mobile2: string, nowMs2: int)
    requires Digits(mobile) == ADMIN_MOBILE && Digits(mobile2) == ADMIN_MOBILE
    requires nowMs2 <= nowMs + OTP_EXPIRY_MS
    ensures Accepts(AfterSend(otps, mobile, code, nowMs), mobile2, IntToString(code), nowMs2)
  {
  }

  /** After the five minutes the code is refused and dropped. */
  lemma ExpiredRefused(otps: map<string, OtpData>, mobile: string, code: int, nowMs: int, mobile2: string, otp: string, nowMs2: int)
    requires Digits(mobile) == ADMIN_MOBILE && Digits(mobile2) == ADMIN_MOBILE
    requires nowMs2 > nowMs + OTP_EXPIRY_MS
    ensures var sent := AfterSend(otps, mobile, code, nowMs);
      !Accepts(sent, mobile2, otp, nowMs2) && ADMIN_MOBILE !in AfterVerify(sent, mobile2, otp, nowMs2)
  {
  }

  /** A new code replaces the old one: the earlier code no longer works. */
  lemma LatestCodeWins(otps: map<string, OtpData>, mobile: string, code1: int, now1: int, code2: int, now2: int, nowMs: int)
    requires Digits(mobile) == ADMIN_MOBILE
    requires IsOtpCode(code1) && IsOtpCode(code2) && code1 != code2
    ensures !Accepts(AfterSend(AfterSend(otps, mobile, code1, now1), mobile, code2, now2), mobile, IntToString(code1), nowMs)
  {
    if IntToString(code1) == IntToString(code2) {
      IntToStringInjective(code1, code2);
    }
  }

  /** Only the admin number ever holds a code. */
  lemma OnlyAdminHoldsCodes(otps: map<string, OtpData>, mobile: string, code: int, nowMs: int)
    requires otps.Keys <= {ADMIN_MOBILE}
    ensures AfterSend(otps, mobile, code, nowMs).Keys <= {ADMIN_MOBILE}
  {
  }

  /** The response of `sendOTP` once the code is stored (or refused for an unknown number). */
  function SendResponse(twilio: TwilioState, mobile: string, code: int, api: ApiOutcome): (r: SendOtpResult)
    ensures Digits(mobile) != ADMIN_MOBILE ==> r == SendOtpResult(false, Some(NOT_REGISTERED), None)
    ensures r.success <==>
      Digits(mobile) == ADMIN_MOBILE && IsConfigured(twilio) && SendWhatsAppMessage(twilio, AdminWhatsApp(ADMIN_MOBILE), api).Ok?
    ensures r.success ==> r.error.None? && r.demoOtp.None?
    ensures Digits(mobile) == ADMIN_MOBILE && !r.success ==> r.demoOtp == Some(IntToString(code)) && r.error.Some?
    ensures Digits(mobile) == ADMIN_MOBILE && !IsConfigured(twilio) ==> r.error == Some(NOT_CONFIGURED)
  {
    var normalized := Digits(mobile);
    if normalized != ADMIN_MOBILE then SendOtpResult(false, Some(NOT_REGISTERED), None)
    else
      var otp := IntToString(code);
      if IsConfigured(twilio) then
        match SendWhatsAppMessage(twilio, AdminWhatsApp(normalized), api)
        case Ok(_) => SendOtpResult(true, None, None)
        case Err(message) => SendOtpResult(false, Some(SendFailure(message)), Some(otp))
      else SendOtpResult(false, Some(NOT_CONFIGURED), Some(otp))
  }

  // ---------------------------------------------------------------------------
  // The service

  /** The module's `otpStore` and the Twilio configuration it sends through. */
  class OtpService {
    var otps: map<string, OtpData>
    const twilio: TwilioState

    /** The only entry is the admin number's, under its own number, holding a six-digit code. */
    ghost predicate Valid()
      reads this
    {
      forall k :: k in otps ==> k == ADMIN_MOBILE && otps[k].mobile == k && |otps[k].otp| == 6 && AllDigits(otps[k].otp)
    }

    constructor(twilio: TwilioState)
      ensures Valid() && otps == map[] && this.twilio == twilio
    {
      this.otps := map[];
      this.twilio := twilio;
    }

    /**
     * `sendOTP`: `code` is what `generateOTP` drew and `api` what the
     * WhatsApp call did; the code is stored before the message is sent, so
     * it stays valid when sending fails.
     */
    method SendOtp(mobile: string, code: int, nowMs: int, api: ApiOutcome) returns (r: SendOtpResult)
      requires Valid() && IsOtpCode(code)
      modifies this
      ensures Valid()
      ensures otps == AfterSend(old(otps), mobile, code, nowMs)
      ensures Digits(mobile) == ADMIN_MOBILE ==>
        otps[ADMIN_MOBILE] == OtpData(NatToString(code), ADMIN_MOBILE, nowMs + OTP_EXPIRY_MS)
      ensures r == SendResponse(twilio, mobile, code, api)
    {
      var normalized := Digits(mobile);
      if normalized != ADMIN_MOBILE {
        return SendOtpResult(false, Some(NOT_REGISTERED), None);
      }
      var otp := IntToString(code);
      OtpText(code);
      otps := otps[normalized := OtpData(otp, normalized, nowMs + OTP_EXPIRY_MS)];
      if IsConfigured(twilio) {
        var sent := SendWhatsAppMessage(twilio, AdminWhatsApp(normalized), api);
        if sent.Ok? {
          return SendOtpResult(true, None, None);
        }
        return SendOtpResult(false, Some(SendFailure(sent.error)), Some(otp));
      }
      return SendOtpResult(false, Some(NOT_CONFIGURED), Some(otp));
    }

    /** `verifyOTP`. */
    method VerifyOtp(mobile: string, otp: string, nowMs: int) returns (ok: bool)
      requires Valid()
      modifies this
      ensures Valid()
      ensures ok == Accepts(old(otps), mobile, otp, nowMs)
      ensures otps == AfterVerify(old(otps), mobile, otp, nowMs)
    {
      var normalized := Digits(mobile);
      if normalized !in otps {
        return false;
      }
      var stored := otps[normalized];
      if nowMs > stored.expiresAt {
        otps := otps - {normalized};
        return false;
      }
      if stored.otp != otp {
        return false;
      }
      otps := otps - {normalized};
      return true;
    }
  }

  // ---------------------------------------------------------------------------
  // The admin token

  predicate IsAscii(s: string) {
    forall i :: 0 <= i < |s| ==> s[i] as int < 128
  }

  /** `Buffer.from(s)` for a string of ASCII characters: one byte per character. */
  function AsciiBytes(s: string): (bs: seq<byte>)
    requires IsAscii(s)
    ensures |bs| == |s| && forall i :: 0 <= i < |s| ==> bs[i] as int == s[i] as int
  {
    seq(|s|, i requires 0 <= i < |s| => s[i] as int as byte)
  }

  /** The text inside a token: the digits of the mobile number, a colon, the issue time. */
  function TokenText(mobile: string, nowMs: nat): (s: string)
    ensures IsAscii(s)
  {
    Digits(mobile) + ":" + NatToString(nowMs)
  }

  /** `createAdminToken`. */
  function CreateAdminToken(mobile: string, nowMs: nat): string {
    Encode(AsciiBytes(TokenText(mobile, nowMs)))
  }

  /**
   * The digits of the decoded text before its first colon, read on the
   * bytes: UTF-8 decoding turns each byte below 0x80 into the same
   * character and never produces an ASCII digit or a colon from the other
   * bytes, so this equals `decoded.split(":")[0].replace(/\D/g, "")`.
   */
  function DigitsBeforeColon(bs: seq<byte>): (r: string)
    ensures AllDigits(r)
  {
    if bs == [] || bs[0] == 0x3A then ""
    else if 0x30 <= bs[0] <= 0x39 then [bs[0] as int as char] + DigitsBeforeColon(bs[1..])
    else DigitsBeforeColon(bs[1..])
  }

  /** `validateAdminToken` (decoding a string never throws, so the catch is never taken). */
  predicate ValidateAdminToken(token: string) {
    DigitsBeforeColon(Decode(token)) == ADMIN_MOBILE
  }

  lemma {:induction false} DigitsBeforeColonOfDigits(d: string, rest: string)
    requires AllDigits(d) && IsAscii(rest)
    ensures DigitsBeforeColon(AsciiBytes(d + ":" + rest)) == d
  {
    var bs := AsciiBytes(d + ":" + rest);
    if d == [] {
      assert bs[0] == 0x3A;
    } else {
      assert (d + ":" + rest)[1..] == d[1..] + ":" + rest;
      assert bs[1..] == AsciiBytes(d[1..] + ":" + rest);
      DigitsBeforeColonOfDigits(d[1..], rest);
      assert [bs[0] as int as char] == [d[0]];
      assert d == [d[0]] + d[1..];
    }
  }

  /** A token is valid exactly when it was issued for the admin number, whenever it was issued. */
  lemma TokenRoundTrip(mobile: string, nowMs: nat)
    ensures ValidateAdminToken(CreateAdminToken(mobile, nowMs)) <==> Digits(mobile) == ADMIN_MOBILE
  {
    DecodeEncode(AsciiBytes(TokenText(mobile, nowMs)));
    DigitsBeforeColonOfDigits(Digits(mobile), NatToString(nowMs));
  }

  /** The token carries no secret: the encoding of the bare admin number is accepted. */
  lemma ForgedTokenAccepted()
    ensures IsAscii(ADMIN_MOBILE) && ValidateAdminToken(Encode(AsciiBytes(ADMIN_MOBILE)))
  {
    DecodeEncode(AsciiBytes(ADMIN_MOBILE));
    NoColonDigits(ADMIN_MOBILE);
  }

  lemma {:induction false} NoColonDigits(d: string)
    requires AllDigits(d)
    ensures IsAscii(d) && DigitsBeforeColon(AsciiBytes(d)) == d
  {
    if d != [] {
      NoColonDigits(d[1..]);
      assert AsciiBytes(d)[1..] == AsciiBytes(d[1..]);
      assert d == [d[0]] + d[1..];
    }
  }
}
