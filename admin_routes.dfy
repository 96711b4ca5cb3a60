/**
 * The two admin API routes: app/api/admin/send-otp/route.ts and
 * app/api/admin/login/route.ts. A request body is `Err(message)` when
 * `request.json()` throws, and otherwise the fields it holds.
 */
module AdminRoutes {
  import opened Wrappers
  import opened Text
  import opened Orders
  import opened Http
  import opened Twilio
  import opened Admin

  datatype LoginRequest = LoginRequest(mobile: Option<string>, otp: Option<string>)

  const LOGIN_FAILED: string := "Login failed"
  const LOGIN_FIELDS_REQUIRED: string := "Mobile number and OTP are required"
  const BAD_OTP: string := "Invalid or expired OTP. Please request a new OTP."
  const MOBILE_REQUIRED: string := "Mobile number is required"
  const SEND_FAILED: string := "Failed to send OTP"
  const SENT: string := "OTP sent successfully via WhatsApp"

  /**
   * POST /api/admin/login: checks the code and, when it is accepted, hands
   * out a token; every token it hands out passes `validateAdminToken`.
   */
  method Login(service: OtpService, body: Result<LoginRequest, string>, nowMs: nat) returns (resp: Response)
    requires service.Valid()
    modifies service
    ensures service.Valid()
    ensures body.Err? ==> resp == Response(400, ErrorBody(LOGIN_FAILED, None)) && service.otps == old(service.otps)
    ensures body.Ok? && !(Truthy(body.value.mobile) && Truthy(body.value.otp)) ==>
      resp == Response(400, ErrorBody(LOGIN_FIELDS_REQUIRED, None)) && service.otps == old(service.otps)
    ensures body.Ok? && Truthy(body.value.mobile) && Truthy(body.value.otp) ==>
      var (m, o) := (body.value.mobile.value, body.value.otp.value);
      && service.otps == AfterVerify(old(service.otps), m, o, nowMs)
      && (resp.status == 200 <==> Accepts(old(service.otps), m, o, nowMs))
      && (resp.status == 200 ==> resp.body == LoginBody(CreateAdminToken(m, nowMs), m))
      && (resp.status != 200 ==> resp == Response(401, ErrorBody(BAD_OTP, None)))
    ensures resp.status == 200 ==> resp.body.LoginBody? && ValidateAdminToken(resp.body.token)
  {
    if body.Err? {
      return Response(400, ErrorBody(LOGIN_FAILED, None));
    }
    var request := body.value;
    if !Truthy(request.mobile) || !Truthy(request.otp) {
      return Response(400, ErrorBody(LOGIN_FIELDS_REQUIRED, None));
    }
    var mobile := request.mobile.value;
    var ok := service.VerifyOtp(mobile, request.otp.value, nowMs);
    if !ok {
      return Response(401, ErrorBody(BAD_OTP, None));
    }
    TokenRoundTrip(mobile, nowMs);
    return Response(200, LoginBody(CreateAdminToken(mobile, nowMs), mobile));
  }

  /** POST /api/admin/send-otp. */
  method SendOtp(service: OtpService, body: Result<Option<string>, string>, code: int, nowMs: int, api: ApiOutcome)
    returns (resp: Response)
    requires service.Valid() && IsOtpCode(code)
    modifies service
    ensures service.Valid()
    ensures body.Err? ==> resp == Response(500, ErrorBody(MessageOr(body.error, SEND_FAILED), None)) && service.otps == old(service.otps)
    ensures body.Ok? && !Truthy(body.value) ==>
      resp == Response(400, ErrorBody(MOBILE_REQUIRED, None)) && service.otps == old(service.otps)
    ensures body.Ok? && Truthy(body.value) ==>
      var r := SendResponse(service.twilio, body.value.value, code, api);
      && service.otps == AfterSend(old(service.otps), body.value.value, code, nowMs)
      && (r.success ==> resp == Response(200, OtpSentBody(SENT, None)))
      && (!r.success ==> resp == Response(400, OtpFailedBody(MessageOr(r.error.GetOr(""), SEND_FAILED), r.demoOtp)))
  {
    if body.Err? {
      return Response(500, ErrorBody(MessageOr(body.error, SEND_FAILED), None));
    }
    if !Truthy(body.value) {
      return Response(400, ErrorBody(MOBILE_REQUIRED, None));
    }
    var result := service.SendOtp(body.value.value, code, nowMs, api);
    if !result.success {
      return Response(400, OtpFailedBody(MessageOr(result.error.GetOr(""), SEND_FAILED), result.demoOtp));
    }
    return Response(200, OtpSentBody(SENT, result.demoOtp));
  }
}
