/** `AuthorizationService`: the same license-key decision as the license-key service, given
    by two separate functions, one answering yes or no and one giving the failure reason. */
module AuthorizationServiceModel {
  import opened Text
  import opened Authorization
  import LicenseKeyAuthorization

  /** `IsAuthorizedAsync`. */
  function IsAuthorized(options: AuthorizationOptions, request: Option<Request>): (r: Call<bool>)
    ensures r.ThrowsArgumentNull? <==> request.None?
    ensures r.Returns? ==> (r.value <==>
              !options.licenseKeyEnabled
              || (FirstHeaderValue(request.value, options.licenseKeyHeader) == Some(options.validLicenseKey)
                  && options.validLicenseKey != ""))
  {
    if request.None? then ThrowsArgumentNull
    else if !options.licenseKeyEnabled then Returns(true)
    else
      var licenseKey := FirstHeaderValue(request.value, options.licenseKeyHeader);
      if IsNullOrEmpty(licenseKey) then Returns(false)
      else Returns(licenseKey.value == options.validLicenseKey)
  }

  /** `GetAuthorizationFailureReasonAsync`. */
  function FailureReason(options: AuthorizationOptions, request: Option<Request>): (r: Call<Option<string>>)
    ensures r.ThrowsArgumentNull? <==> request.None?
    ensures r.Returns? && r.value.Some? ==>
              r.value.value == InvalidLicenseKey || r.value.value == MissingHeaderPrefix + options.licenseKeyHeader
  {
    if request.None? then ThrowsArgumentNull
    else if !options.licenseKeyEnabled then Returns(None)
    else
      var licenseKey := FirstHeaderValue(request.value, options.licenseKeyHeader);
      if IsNullOrEmpty(licenseKey) then Returns(Some(MissingHeaderPrefix + options.licenseKeyHeader))
      else Returns(if licenseKey.value == options.validLicenseKey then None else Some(InvalidLicenseKey))
  }

  /** The two functions agree: a request is authorized exactly when there is no reason. */
  lemma AuthorizedIffNoReason(options: AuthorizationOptions, request: Request)
    ensures IsAuthorized(options, Some(request)).value <==> FailureReason(options, Some(request)).value.None?
  {
  }

  /** With checking off, the request is authorized with no reason. */
  lemma DisabledAuthorized(options: AuthorizationOptions, request: Request)
    requires !options.licenseKeyEnabled
    ensures IsAuthorized(options, Some(request)) == Returns(true)
    ensures FailureReason(options, Some(request)) == Returns(None)
  {
  }

  /** A missing or empty key is refused, and the reason names the header. */
  lemma MissingKeyRefused(options: AuthorizationOptions, request: Request)
    requires options.licenseKeyEnabled
    requires IsNullOrEmpty(FirstHeaderValue(request, options.licenseKeyHeader))
    ensures IsAuthorized(options, Some(request)) == Returns(false)
    ensures FailureReason(options, Some(request)) == Returns(Some("Missing required header: " + options.licenseKeyHeader))
  {
  }

  /** Another non-empty key is refused as invalid. */
  lemma MismatchRefused(options: AuthorizationOptions, request: Request, key: string)
    requires options.licenseKeyEnabled
    requires FirstHeaderValue(request, options.licenseKeyHeader) == Some(key)
    requires key != "" && key != options.validLicenseKey
    ensures IsAuthorized(options, Some(request)) == Returns(false)
    ensures FailureReason(options, Some(request)) == Returns(Some("Invalid license key"))
  {
  }

  /** This service decides exactly as the license-key service does, reason included. */
  lemma AgreesWithLicenseKeyService(options: AuthorizationOptions, request: Option<Request>)
    ensures var r := LicenseKeyAuthorization.Authorize(options, request);
            && (r.ThrowsArgumentNull? <==> IsAuthorized(options, request).ThrowsArgumentNull?)
            && (r.Returns? ==> r.value.isAuthorized == IsAuthorized(options, request).value)
            && (r.Returns? ==> r.value.failureReason == FailureReason(options, request).value)
  {
  }
}
