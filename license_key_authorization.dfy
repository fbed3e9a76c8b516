/** `LicenseKeyAuthorizationService.AuthorizeAsync`: with license checking on, a request is
    authorized exactly when the first value of the license-key header is the configured key,
    compared character by character. */
module LicenseKeyAuthorization {
  import opened Text
  import opened Authorization

  /** `AuthorizeAsync`. */
  function Authorize(options: AuthorizationOptions, request: Option<Request>): (r: Call<AuthorizationResult>)
    ensures r.ThrowsArgumentNull? <==> request.None?
    ensures r.Returns? ==> WellFormed(r.value)
    ensures r.Returns? ==> (r.value.isAuthorized <==>
              !options.licenseKeyEnabled
              || (FirstHeaderValue(request.value, options.licenseKeyHeader) == Some(options.validLicenseKey)
                  && options.validLicenseKey != ""))
  {
    if request.None? then ThrowsArgumentNull
    else if !options.licenseKeyEnabled then Returns(Success())
    else
      var licenseKey := FirstHeaderValue(request.value, options.licenseKeyHeader);
      if IsNullOrEmpty(licenseKey) then Returns(Failure(MissingHeaderPrefix + options.licenseKeyHeader))
      else if licenseKey.value != options.validLicenseKey then Returns(Failure(InvalidLicenseKey))
      else Returns(Success())
  }

  /** With license checking off, every request is authorized, whatever its headers. */
  lemma DisabledAlwaysSucceeds(options: AuthorizationOptions, request: Request)
    requires !options.licenseKeyEnabled
    ensures Authorize(options, Some(request)) == Returns(Success())
  {
  }

  /** A missing header, a header with no value or an empty first value names the header. */
  lemma MissingKeyFails(options: AuthorizationOptions, request: Request)
    requires options.licenseKeyEnabled
    requires IsNullOrEmpty(FirstHeaderValue(request, options.licenseKeyHeader))
    ensures Authorize(options, Some(request)) == Returns(Failure("Missing required header: " + options.licenseKeyHeader))
  {
  }

  /** The configured key as first value is accepted. */
  lemma ExactKeySucceeds(options: AuthorizationOptions, request: Request)
    requires options.licenseKeyEnabled && options.validLicenseKey != ""
    requires FirstHeaderValue(request, options.licenseKeyHeader) == Some(options.validLicenseKey)
    ensures Authorize(options, Some(request)) == Returns(Success())
  {
  }

  /** Any other non-empty first value, a different case included, is an invalid key. */
  lemma OtherKeyFails(options: AuthorizationOptions, request: Request, key: string)
    requires options.licenseKeyEnabled
    requires FirstHeaderValue(request, options.licenseKeyHeader) == Some(key)
    requires key != "" && key != options.validLicenseKey
    ensures Authorize(options, Some(request)) == Returns(Failure("Invalid license key"))
  {
  }

  /** Only the first value of the header counts: a valid key sent second is rejected. */
  lemma OnlyFirstValueCounts(options: AuthorizationOptions, first: string)
    requires options.licenseKeyEnabled
    requires first != "" && first != options.validLicenseKey
    ensures var request := Request(map[options.licenseKeyHeader := [first, options.validLicenseKey]]);
            Authorize(options, Some(request)) == Returns(Failure(InvalidLicenseKey))
  {
  }

  /** With the default options, the header "license-key: valid" is accepted and
      "license-key: VALID" is not. */
  lemma DefaultOptionsExamples()
    ensures Authorize(DefaultOptions, Some(Request(map["license-key" := ["valid"]]))) == Returns(Success())
    ensures Authorize(DefaultOptions, Some(Request(map["license-key" := ["VALID"]]))) == Returns(Failure(InvalidLicenseKey))
    ensures Authorize(DefaultOptions, Some(Request(map[]))) == Returns(Failure("Missing required header: license-key"))
  {
    assert "VALID" != "valid" by { assert "VALID"[0] != "valid"[0]; }
    assert MissingHeaderPrefix + "license-key" == "Missing required header: license-key";
  }
}
