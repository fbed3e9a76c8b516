/** What the sample extension's two authorization services share: the configured options,
    the part of an HTTP request they read (its headers) and the result record. */
module Authorization {
  import opened Text

  /** `AuthorizationOptions`. */
  datatype AuthorizationOptions = AuthorizationOptions(
    licenseKeyEnabled: bool,
    validLicenseKey: string,
    licenseKeyHeader: string)

  /** The options as configured when nothing overrides them. */
  const DefaultOptions := AuthorizationOptions(true, "valid", "license-key")

  /** The headers of an HTTP request: each name holds the values sent under it, in order.
      Names are taken as already normalised to one spelling (see README). */
  datatype Request = Request(headers: map<string, seq<string>>)

  /** A `null` request (`ArgumentNullException.ThrowIfNull`) or a request. */
  datatype Call<T> = ThrowsArgumentNull | Returns(value: T)

  /** `request.Headers[name].FirstOrDefault()`: the first value sent under `name`, if any. */
  function FirstHeaderValue(request: Request, name: string): (r: Option<string>)
    ensures r.Some? <==> name in request.headers && request.headers[name] != []
    ensures r.Some? ==> r.value == request.headers[name][0]
  {
    if name in request.headers && request.headers[name] != [] then Some(request.headers[name][0]) else None
  }

  /** `string.IsNullOrEmpty` on a possibly missing value. */
  predicate IsNullOrEmpty(v: Option<string>) {
    v.None? || v.value == ""
  }

  /** `AuthorizationResult`. */
  datatype AuthorizationResult = AuthorizationResult(isAuthorized: bool, failureReason: Option<string>)

  /** `AuthorizationResult.Success()`. */
  function Success(): (r: AuthorizationResult)
    ensures r.isAuthorized && r.failureReason.None?
  {
    AuthorizationResult(true, None)
  }

  /** `AuthorizationResult.Failure(reason)`. */
  function Failure(reason: string): (r: AuthorizationResult)
    ensures !r.isAuthorized && r.failureReason == Some(reason)
  {
    AuthorizationResult(false, Some(reason))
  }

  /** Every result built by `Success` or `Failure` is authorized exactly when it carries no
      reason. */
  predicate WellFormed(r: AuthorizationResult) {
    r.isAuthorized <==> r.failureReason.None?
  }

  const MissingHeaderPrefix := "Missing required header: "
  const InvalidLicenseKey := "Invalid license key"

  /** The reason given for a missing header names the header, so different headers give
      different reasons, and none of them is the invalid-key reason. */
  lemma MissingHeaderReasonsDistinct(h1: string, h2: string)
    ensures MissingHeaderPrefix + h1 == MissingHeaderPrefix + h2 <==> h1 == h2
    ensures MissingHeaderPrefix + h1 != InvalidLicenseKey
  {
    if MissingHeaderPrefix + h1 == MissingHeaderPrefix + h2 {
      assert h1 == (MissingHeaderPrefix + h1)[|MissingHeaderPrefix|..];
    }
    assert (MissingHeaderPrefix + h1)[0] != InvalidLicenseKey[0];
  }
}
