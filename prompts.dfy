/** The pure helpers of the partner integration CLI's prompts: the answer validators, the
    integration-name normaliser, the comma-separated list reader, the manifest field
    builder and the input-type descriptions. A validator answers `true` or a message; here
    that is `Accepted` or `Rejected(message)`. */
module Prompts {
  import opened Text
  import opened ContextItems

  datatype Verdict = Accepted | Rejected(message: string)

  // ---------------------------------------------------------------- integration name

  const NameRequired := "Integration name is required"
  const NameTooShort := "Integration name must be at least 3 characters long"
  const NameTooLong := "Integration name must be less than 50 characters"
  const NameBadEdges := "Integration name must start and end with alphanumeric characters"
                        + " and can contain spaces, hyphens, underscores, and periods"

  predicate IsNameInnerChar(c: char) {
    IsAsciiAlnum(c) || IsJsWhitespace(c) || c == '-' || c == '_' || c == '.'
  }

  /** `/^[a-zA-Z0-9][a-zA-Z0-9\s\-_.]*[a-zA-Z0-9]$/`. */
  predicate MatchesNamePattern(s: string) {
    && |s| >= 2
    && IsAsciiAlnum(s[0])
    && IsAsciiAlnum(s[|s| - 1])
    && forall i :: 0 < i < |s| - 1 ==> IsNameInnerChar(s[i])
  }

  /** `validateIntegrationName`: the checks in order, blank, too short, too long, pattern. */
  function ValidateIntegrationName(input: string): (r: Verdict)
    ensures r.Accepted? ==> 3 <= |input| <= 50 && IsAsciiAlnum(input[0]) && IsAsciiAlnum(input[|input| - 1])
    ensures r.Rejected? ==>
              r.message == NameRequired || r.message == NameTooShort || r.message == NameTooLong || r.message == NameBadEdges
  {
    if IsBlank(input) then Rejected(NameRequired)
    else if |input| < 3 then Rejected(NameTooShort)
    else if |input| > 50 then Rejected(NameTooLong)
    else if !MatchesNamePattern(input) then Rejected(NameBadEdges)
    else Accepted
  }

  /** A string with a character outside white space is not blank. */
  lemma NotBlankAt(s: string, i: nat)
    requires i < |s| && !IsJsWhitespace(s[i])
    ensures !IsBlank(s)
  {
    BlankIffAllWhitespace(s);
  }

  /** A name is accepted exactly when it has 3 to 50 characters and matches the pattern;
      a name of the right length that fails the pattern gets the edges message. */
  lemma IntegrationNameAccepted(input: string)
    ensures ValidateIntegrationName(input).Accepted? <==> 3 <= |input| <= 50 && MatchesNamePattern(input)
    ensures 3 <= |input| <= 50 && !IsBlank(input) && !MatchesNamePattern(input) ==>
              ValidateIntegrationName(input) == Rejected(NameBadEdges)
  {
    if 3 <= |input| && MatchesNamePattern(input) {
      NotBlankAt(input, 0);
    }
  }

  /** Each failure has its own message, so the message tells which check failed. */
  lemma NameMessagesDistinct()
    ensures NameRequired != NameTooShort && NameRequired != NameTooLong && NameRequired != NameBadEdges
    ensures NameTooShort != NameTooLong && NameTooShort != NameBadEdges && NameTooLong != NameBadEdges
  {
    assert NameRequired[17] != NameTooShort[17];
    assert NameRequired[17] != NameTooLong[17];
    assert NameRequired[17] != NameBadEdges[17];
    assert NameTooShort[25] != NameTooLong[25];
    assert NameTooShort[22] != NameBadEdges[22];
    assert NameTooLong[22] != NameBadEdges[22];
  }

  /** The names the CLI's tests accept: with a dash, with underscores, with a space. */
  lemma TestNamesMatch(a: string, b: string, c: string)
    requires a == "my-integration" && b == "EHR_Sync_Tool" && c == "Healthcare Integration"
    ensures MatchesNamePattern(a) && MatchesNamePattern(b) && MatchesNamePattern(c)
  {
  }

  lemma TestNamesAccepted(a: string, b: string, c: string)
    requires a == "my-integration" && b == "EHR_Sync_Tool" && c == "Healthcare Integration"
    ensures ValidateIntegrationName(a) == Accepted
    ensures ValidateIntegrationName(b) == Accepted
    ensures ValidateIntegrationName(c) == Accepted
  {
    TestNamesMatch(a, b, c);
    IntegrationNameAccepted(a);
    IntegrationNameAccepted(b);
    IntegrationNameAccepted(c);
  }

  /** The empty and the two-letter names get the first two messages. */
  lemma ShortNamesRejected()
    ensures ValidateIntegrationName("") == Rejected(NameRequired)
    ensures ValidateIntegrationName("ab") == Rejected(NameTooShort)
  {
    NotBlankAt("ab", 0);
  }

  /** A dash at either end gets the edges message. */
  lemma DashEdgedNamesRejected(a: string, b: string)
    requires a == "-invalid" && b == "invalid-"
    ensures ValidateIntegrationName(a) == Rejected(NameBadEdges)
    ensures ValidateIntegrationName(b) == Rejected(NameBadEdges)
  {
    DashEdgeRejected(a);
    DashEdgeRejected(b);
  }

  /** A name of allowed length that starts or ends with a dash gets the edges message. */
  lemma DashEdgeRejected(s: string)
    requires 3 <= |s| <= 50 && (s[0] == '-' || s[|s| - 1] == '-')
    ensures ValidateIntegrationName(s) == Rejected(NameBadEdges)
  {
    if s[0] == '-' {
      NotBlankAt(s, 0);
    } else {
      NotBlankAt(s, |s| - 1);
    }
  }

  // ---------------------------------------------------------------- version

  const VersionRequired := "Version is required"
  const VersionBadFormat := "Version must be in format x.y.z (e.g., 1.0.0)"

  /** One or more `\d`: ASCII digits. */
  predicate IsDigits(s: string) {
    |s| >= 1 && forall i :: 0 <= i < |s| ==> IsAsciiDigit(s[i])
  }

  /** The length of the leading run of digits. */
  function LeadingDigits(s: string): (n: nat)
    ensures n <= |s|
    ensures forall i :: 0 <= i < n ==> IsAsciiDigit(s[i])
    ensures n < |s| ==> !IsAsciiDigit(s[n])
  {
    if s != [] && IsAsciiDigit(s[0]) then 1 + LeadingDigits(s[1..]) else 0
  }

  /** `/^\d+\.\d+\.\d+$/`, matched left to right: digits, a dot, digits, a dot, digits to
      the end. */
  predicate MatchesVersionPattern(s: string) {
    var a := LeadingDigits(s);
    a > 0 && a < |s| && s[a] == '.' &&
    var t := s[a + 1..];
    var b := LeadingDigits(t);
    b > 0 && b < |t| && t[b] == '.' &&
    IsDigits(t[b + 1..])
  }

  /** Three numbers joined by dots. */
  ghost predicate IsDottedTriple(s: string) {
    exists x, y, z :: IsDigits(x) && IsDigits(y) && IsDigits(z) && s == x + "." + y + "." + z
  }

  /** A run of digits followed by a non-digit is the leading run. */
  lemma {:induction false} LeadingDigitsOf(x: string, rest: string)
    requires IsDigits(x) && rest != [] && !IsAsciiDigit(rest[0])
    ensures LeadingDigits(x + rest) == |x|
    decreases |x|
  {
    if |x| > 1 {
      LeadingDigitsOf(x[1..], rest);
      assert (x + rest)[1..] == x[1..] + rest;
    } else {
      assert (x + rest)[1..] == rest;
    }
  }

  /** What the pattern matches is three numbers joined by dots. */
  lemma VersionPatternSound(s: string)
    requires MatchesVersionPattern(s)
    ensures IsDottedTriple(s)
  {
    var a := LeadingDigits(s);
    var t := s[a + 1..];
    var b := LeadingDigits(t);
    var x, y, z := s[..a], t[..b], t[b + 1..];
    assert IsDigits(x) && IsDigits(y);
    SplitAt(s, a);
    SplitAt(t, b);
    assert [s[a]] == "." && [t[b]] == ".";
    Rejoin(s, x, ".", t, y, z);
    assert IsDigits(x) && IsDigits(y) && IsDigits(z) && s == x + "." + y + "." + z;
  }

  lemma Rejoin<T>(s: seq<T>, x: seq<T>, d: seq<T>, t: seq<T>, y: seq<T>, z: seq<T>)
    requires s == x + d + t && t == y + d + z
    ensures s == x + d + y + d + z
  {
  }

  /** Three numbers joined by dots match the pattern. */
  lemma VersionPatternComplete(x: string, y: string, z: string)
    requires IsDigits(x) && IsDigits(y) && IsDigits(z)
    ensures MatchesVersionPattern(x + "." + y + "." + z)
  {
    var s := x + "." + y + "." + z;
    LeadingDigitsOf(x, "." + y + "." + z);
    assert s == x + ("." + y + "." + z);
    var t := s[|x| + 1..];
    assert t == y + ("." + z);
    LeadingDigitsOf(y, "." + z);
    assert t[|y| + 1..] == z;
  }

  /** The pattern matches exactly the strings made of three numbers joined by dots. */
  lemma VersionPatternIff(s: string)
    ensures MatchesVersionPattern(s) <==> IsDottedTriple(s)
  {
    if MatchesVersionPattern(s) {
      VersionPatternSound(s);
    }
    if IsDottedTriple(s) {
      var x, y, z :| IsDigits(x) && IsDigits(y) && IsDigits(z) && s == x + "." + y + "." + z;
      VersionPatternComplete(x, y, z);
    }
  }

  /** `validateVersion`. */
  function ValidateVersion(input: string): (r: Verdict)
    ensures r.Accepted? <==> MatchesVersionPattern(input)
    ensures r.Rejected? ==> r.message == (if IsBlank(input) then VersionRequired else VersionBadFormat)
  {
    if IsBlank(input) then Rejected(VersionRequired)
    else if !MatchesVersionPattern(input) then Rejected(VersionBadFormat)
    else Accepted
  }

  /** Accepted versions are exactly three dot-separated numbers. */
  lemma VersionAcceptedIff(input: string)
    ensures ValidateVersion(input).Accepted? <==> IsDottedTriple(input)
  {
    VersionPatternIff(input);
  }

  /** Versions the CLI's tests accept. */
  lemma SimpleVersionAccepted(v: string)
    requires v == "1.0.0"
    ensures ValidateVersion(v) == Accepted
  {
    VersionPatternComplete("1", "0", "0");
    assert v == "1" + "." + "0" + "." + "0";
  }

  lemma WideVersionAccepted(v: string)
    requires v == "10.20.30"
    ensures ValidateVersion(v) == Accepted
  {
    VersionPatternComplete("10", "20", "30");
    assert v == "10" + "." + "20" + "." + "30";
  }

  /** Two parts, a leading letter and a suffix are all bad formats. */
  lemma VersionsRejected()
    ensures ValidateVersion("") == Rejected(VersionRequired)
    ensures ValidateVersion("1.0") == Rejected(VersionBadFormat)
    ensures ValidateVersion("v1.0.0") == Rejected(VersionBadFormat)
  {
    NotBlankAt("1.0", 0);
    NotBlankAt("v1.0.0", 0);
  }

  lemma SuffixedVersionRejected(s: string)
    requires s == "1.0.0-beta"
    ensures ValidateVersion(s) == Rejected(VersionBadFormat)
  {
    NotBlankAt(s, 0);
    assert s[0] == '1' && s[1] == '.';
    assert LeadingDigits(s) == 1;
    var t := s[2..];
    assert t[0] == '0' && t[1] == '.';
    assert LeadingDigits(t) == 1;
    assert t[2..][1] == '-';
  }

  // ---------------------------------------------------------------- e-mail

  const EmailRequired := "Email is required"
  const EmailBadFormat := "Please enter a valid email address"

  /** `[^\s@]`. */
  predicate IsEmailChar(c: char) {
    !IsJsWhitespace(c) && c != '@'
  }

  predicate AllEmailChars(s: string) {
    forall i :: 0 <= i < |s| ==> IsEmailChar(s[i])
  }

  /** `[^\s@]+\.[^\s@]+` on the text after the '@': no white space or '@', and a dot
      with something on either side of it. */
  predicate MatchesDomain(d: string) {
    AllEmailChars(d) && exists k :: 0 < k < |d| - 1 && d[k] == '.'
  }

  /** `/^[^\s@]+@[^\s@]+\.[^\s@]+$/`. */
  predicate MatchesEmailPattern(s: string) {
    exists p :: 0 < p < |s| && s[p] == '@' && AllEmailChars(s[..p]) && MatchesDomain(s[p + 1..])
  }

  /** `validateEmail`. */
  function ValidateEmail(input: string): (r: Verdict)
    ensures r.Accepted? <==> MatchesEmailPattern(input)
    ensures r.Rejected? ==> r.message == (if IsBlank(input) then EmailRequired else EmailBadFormat)
  {
    if IsBlank(input) then Rejected(EmailRequired)
    else if MatchesEmailPattern(input) then Accepted
    else Rejected(EmailBadFormat)
  }

  /** An accepted address has exactly one '@', with text before it and a dotted name
      after it. */
  lemma EmailShape(input: string)
    requires ValidateEmail(input).Accepted?
    ensures exists p :: 0 < p < |input| && input[p] == '@' &&
              (forall i :: 0 <= i < |input| && input[i] == '@' ==> i == p) &&
              MatchesDomain(input[p + 1..])
  {
    var p :| 0 < p < |input| && input[p] == '@' && AllEmailChars(input[..p]) && MatchesDomain(input[p + 1..]);
    AtOnlyAt(input, p);
  }

  /** With no '@' on either side of position `p`, `p` is the only '@'. */
  lemma AtOnlyAt(s: string, p: nat)
    requires p < |s| && AllEmailChars(s[..p]) && AllEmailChars(s[p + 1..])
    ensures forall i :: 0 <= i < |s| && s[i] == '@' ==> i == p
  {
    forall i | 0 <= i < |s| && i != p ensures s[i] != '@' {
      if i < p {
        assert s[..p][i] == s[i];
      } else {
        assert s[p + 1..][i - p - 1] == s[i];
      }
    }
  }

  /** An address accepts when its two halves have the required shape. */
  lemma EmailOf(local: string, domain: string)
    requires local != [] && AllEmailChars(local) && MatchesDomain(domain)
    ensures ValidateEmail(local + "@" + domain) == Accepted
  {
    var s := local + "@" + domain;
    assert s[|local|] == '@';
    assert s[..|local|] == local;
    assert s[|local| + 1..] == domain;
  }

  /** The address the CLI's tests accept, "user@example.com". */
  lemma SimpleAddressAccepted(local: string, domain: string)
    requires local == "user" && domain == "example.com"
    ensures ValidateEmail(local + "@" + domain) == Accepted
  {
    assert AllEmailChars(local);
    assert domain[7] == '.' && AllEmailChars(domain);
    EmailOf(local, domain);
  }

  /** Without an '@', without text before it or without a domain after it, the address
      is refused. */
  lemma AddressWithoutAtRejected(a: string)
    requires a == "invalid-email"
    ensures ValidateEmail(a) == Rejected(EmailBadFormat)
  {
    NotBlankAt(a, 0);
    assert forall p :: 0 <= p < |a| ==> a[p] != '@';
  }

  lemma AddressWithoutLocalPartRejected(a: string)
    requires a == "@example.com"
    ensures ValidateEmail(a) == Rejected(EmailBadFormat)
  {
    NotBlankAt(a, 1);
    forall p | 0 < p < |a| ensures !AllEmailChars(a[..p]) {
      assert !IsEmailChar(a[..p][0]);
    }
  }

  lemma AddressWithoutDomainRejected(a: string)
    requires a == "user@"
    ensures ValidateEmail(a) == Rejected(EmailBadFormat)
  {
    NotBlankAt(a, 0);
    forall p | 0 < p < |a| && a[p] == '@' ensures !MatchesDomain(a[p + 1..]) {
      assert p == 4;
      assert a[p + 1..] == [];
    }
  }

  // ---------------------------------------------------------------- publisher and partner ids

  const PublisherRequired := "Publisher ID is required"
  const PublisherBadFormat := "Publisher ID must be lowercase, start and end with alphanumeric characters,"
                              + " and can contain dots and hyphens"

  predicate IsLowerAlnum(c: char) {
    IsAsciiLower(c) || IsAsciiDigit(c)
  }

  /** `/^[a-z0-9][a-z0-9\-.]*[a-z0-9]$/`: at least two characters. */
  predicate MatchesPublisherIdPattern(s: string) {
    && |s| >= 2
    && IsLowerAlnum(s[0])
    && IsLowerAlnum(s[|s| - 1])
    && forall i :: 0 < i < |s| - 1 ==> IsLowerAlnum(s[i]) || s[i] == '-' || s[i] == '.'
  }

  /** `validatePublisherId`. */
  function ValidatePublisherId(input: string): (r: Verdict)
    ensures r.Accepted? ==> MatchesPublisherIdPattern(input)
    ensures r.Rejected? ==> r.message == (if IsBlank(input) then PublisherRequired else PublisherBadFormat)
  {
    if IsBlank(input) then Rejected(PublisherRequired)
    else if !MatchesPublisherIdPattern(input) then Rejected(PublisherBadFormat)
    else Accepted
  }

  /** Exactly the strings of the pattern are accepted; a single character never is. */
  lemma PublisherIdAcceptedIff(input: string)
    ensures ValidatePublisherId(input).Accepted? <==> MatchesPublisherIdPattern(input)
    ensures |input| == 1 ==> ValidatePublisherId(input).Rejected?
  {
    if MatchesPublisherIdPattern(input) {
      NotBlankAt(input, 0);
    }
  }

  const PartnerRequired := "Partner ID is required"
  const PartnerNotLowercase := "Partner ID must be lowercase"
  const PartnerBadFormat := "Partner ID must start and end with alphanumeric characters"
                            + " and can include hyphens, dots, or underscores"

  predicate IsPartnerInnerChar(c: char) {
    IsLowerAlnum(c) || c == '.' || c == '_' || c == '-'
  }

  /** `/^[a-z0-9](?:[a-z0-9._-]*[a-z0-9])?$/`: one character, or lower-case alphanumeric
      ends around any of `[a-z0-9._-]`. */
  predicate MatchesPartnerIdPattern(s: string) {
    && |s| >= 1
    && IsLowerAlnum(s[0])
    && IsLowerAlnum(s[|s| - 1])
    && forall i :: 0 < i < |s| - 1 ==> IsPartnerInnerChar(s[i])
  }

  /** `validatePartnerId`: blank, then not lower case (`input !== input.toLowerCase()`),
      then the pattern. */
  function ValidatePartnerId(input: string): (r: Verdict)
    ensures r.Accepted? ==> MatchesPartnerIdPattern(input)
    ensures r.Rejected? ==> r.message == PartnerRequired || r.message == PartnerNotLowercase || r.message == PartnerBadFormat
  {
    if IsBlank(input) then Rejected(PartnerRequired)
    else if input != Lower(input) then Rejected(PartnerNotLowercase)
    else if !MatchesPartnerIdPattern(input) then Rejected(PartnerBadFormat)
    else Accepted
  }

  /** Exactly the strings of the pattern are accepted. */
  lemma PartnerIdAcceptedIff(input: string)
    ensures ValidatePartnerId(input).Accepted? <==> MatchesPartnerIdPattern(input)
  {
    if MatchesPartnerIdPattern(input) {
      NotBlankAt(input, 0);
      forall i | 0 <= i < |input| ensures !IsAsciiUpper(input[i]) {
        if 0 < i < |input| - 1 {
          assert IsPartnerInnerChar(input[i]);
        }
      }
      LowerOfNoUpper(input);
    }
  }

  /** An upper-case letter anywhere is reported as such, before the pattern is tried. */
  lemma UppercasePartnerIdRejected(input: string, i: nat)
    requires i < |input| && IsAsciiUpper(input[i])
    ensures ValidatePartnerId(input) == Rejected(PartnerNotLowercase)
  {
    NotBlankAt(input, i);
    assert Lower(input)[i] != input[i];
  }

  /** Every accepted publisher id is an accepted partner id; a one-character id is only a
      partner id. */
  lemma PublisherIdIsPartnerId(input: string)
    requires ValidatePublisherId(input).Accepted?
    ensures ValidatePartnerId(input).Accepted?
  {
    PartnerIdAcceptedIff(input);
  }

  lemma SingleCharacterPartnerId(c: char)
    requires IsLowerAlnum(c)
    ensures ValidatePartnerId([c]) == Accepted && ValidatePublisherId([c]).Rejected?
  {
    PartnerIdAcceptedIff([c]);
    PublisherIdAcceptedIff([c]);
  }

  // ---------------------------------------------------------------- GUIDs and identity claims

  const GuidRequired := "Value is required"
  const GuidBadFormat := "Value must be a valid GUID format"
                         + " (e.g., 12345678-1234-1234-1234-123456789abc)"

  /** `[0-9a-f]` under the `i` flag. */
  predicate IsHexDigit(c: char) {
    IsAsciiDigit(c) || 'a' <= c <= 'f' || 'A' <= c <= 'F'
  }

  predicate IsGuidDashPosition(i: int) {
    i == 8 || i == 13 || i == 18 || i == 23
  }

  /** `/^[0-9a-f]{8}-[0-9a-f]{4}-[0-9a-f]{4}-[0-9a-f]{4}-[0-9a-f]{12}$/i`. */
  predicate MatchesGuidPattern(t: string) {
    |t| == 36 && forall i :: 0 <= i < 36 ==> if IsGuidDashPosition(i) then t[i] == '-' else IsHexDigit(t[i])
  }

  /** `validateGuid`, and `validateTenantId`, which is the same check: the pattern is
      tested on the trimmed input. */
  function ValidateGuid(input: string): (r: Verdict)
    ensures r.Accepted? <==> MatchesGuidPattern(Trim(input))
    ensures r.Rejected? ==> r.message == (if IsBlank(input) then GuidRequired else GuidBadFormat)
  {
    if IsBlank(input) then Rejected(GuidRequired)
    else if MatchesGuidPattern(Trim(input)) then Accepted
    else Rejected(GuidBadFormat)
  }

  /** A GUID is still accepted with white space around it. */
  lemma PaddedGuidAccepted(g: string, pad: string)
    requires MatchesGuidPattern(g) && AllWhitespace(pad)
    ensures ValidateGuid(pad + g + pad) == Accepted
  {
    TrimOfTrimmed(g);
    TrimOfPadded(pad, g);
  }

  /** White space on both sides of a string that does not start or end with it is what
      trimming removes. */
  lemma {:induction false} TrimOfPadded(pad: string, g: string)
    requires AllWhitespace(pad) && g != [] && !IsJsWhitespace(g[0]) && !IsJsWhitespace(g[|g| - 1])
    ensures Trim(pad + g + pad) == g
    decreases |pad|
  {
    TrimStartOfWhitespace(pad, g + pad);
    assert pad + g + pad == pad + (g + pad);
    TrimEndOfWhitespace(g, pad);
  }

  lemma TrimStartOfWhitespace(pad: string, s: string)
    requires AllWhitespace(pad) && s != [] && !IsJsWhitespace(s[0])
    ensures TrimStart(pad + s) == s
  {
    var w := pad + s;
    var r := TrimStart(w);
    var cut := |w| - |r|;
    assert w[|pad|] == s[0];
    assert r == w[|pad|..];
  }

  lemma {:induction false} TrimEndOfWhitespace(s: string, pad: string)
    requires AllWhitespace(pad) && s != [] && !IsJsWhitespace(s[|s| - 1])
    ensures TrimEnd(s + pad) == s
    decreases |pad|
  {
    if pad == [] {
      assert s + pad == s;
    } else {
      var q := pad[..|pad| - 1];
      assert (s + pad)[..|s + pad| - 1] == s + q;
      TrimEndOfWhitespace(s, q);
    }
  }

  lemma TestGuidsMatch(a: string, b: string)
    requires a == "12345678-1234-1234-1234-123456789abc" && b == "ABCDEF12-3456-7890-ABCD-EF1234567890"
    ensures MatchesGuidPattern(a) && MatchesGuidPattern(b)
  {
    LowerGuidMatches(a);
    UpperGuidMatches(b);
  }

  lemma LowerGuidMatches(a: string)
    requires a == "12345678-1234-1234-1234-123456789abc"
    ensures MatchesGuidPattern(a)
  {
  }

  lemma UpperGuidMatches(b: string)
    requires b == "ABCDEF12-3456-7890-ABCD-EF1234567890"
    ensures MatchesGuidPattern(b)
  {
  }

  lemma TestGuidsAccepted(a: string, b: string)
    requires a == "12345678-1234-1234-1234-123456789abc" && b == "ABCDEF12-3456-7890-ABCD-EF1234567890"
    ensures ValidateGuid(a) == Accepted && ValidateGuid(b) == Accepted
  {
    TestGuidsMatch(a, b);
    GuidAccepted(a);
    GuidAccepted(b);
  }

  /** Without surrounding white space, a string of the pattern is accepted as it is. */
  lemma GuidAccepted(g: string)
    requires MatchesGuidPattern(g)
    ensures ValidateGuid(g) == Accepted
  {
    assert IsHexDigit(g[0]) && IsHexDigit(g[35]);
    TrimOfTrimmed(g);
  }

  lemma TestGuidsRejected(a: string, b: string, c: string)
    requires a == "not-a-guid" && b == "12345678-1234-1234-1234" && c == "12345678-1234-1234-1234-123456789abcde"
    ensures ValidateGuid(a) == Rejected(GuidBadFormat)
    ensures ValidateGuid(b) == Rejected(GuidBadFormat)
    ensures ValidateGuid(c) == Rejected(GuidBadFormat)
  {
    WrongLengthGuidRejected(a);
    WrongLengthGuidRejected(b);
    WrongLengthGuidRejected(c);
  }

  /** A string without white space at its ends and not 36 characters long is refused as a
      bad format. */
  lemma WrongLengthGuidRejected(s: string)
    requires s != [] && !IsJsWhitespace(s[0]) && !IsJsWhitespace(s[|s| - 1]) && |s| != 36
    ensures ValidateGuid(s) == Rejected(GuidBadFormat)
  {
    TrimOfTrimmed(s);
  }

  const ClaimRequired := "Identity claim is required"
  const ClaimBadFormat := "Identity claim must be exactly 3 letters"

  /** `/^[A-Za-z]{3}$/`. */
  predicate IsThreeLetters(t: string) {
    |t| == 3 && IsAsciiLetter(t[0]) && IsAsciiLetter(t[1]) && IsAsciiLetter(t[2])
  }

  /** `validateIdentityClaim`: three ASCII letters once trimmed. */
  function ValidateIdentityClaim(input: string): (r: Verdict)
    ensures r.Accepted? <==> IsThreeLetters(Trim(input))
    ensures r.Rejected? ==> r.message == (if IsBlank(input) then ClaimRequired else ClaimBadFormat)
  {
    if IsBlank(input) then Rejected(ClaimRequired)
    else if IsThreeLetters(Trim(input)) then Accepted
    else Rejected(ClaimBadFormat)
  }

  /** The claims the prompt suggests are accepted. */
  lemma KnownClaimsAccepted(azp: string, oid: string)
    requires azp == "azp" && oid == "oid"
    ensures ValidateIdentityClaim(azp) == Accepted && ValidateIdentityClaim(oid) == Accepted
  {
    TrimOfTrimmed(azp);
    TrimOfTrimmed(oid);
  }

  // ---------------------------------------------------------------- tool names

  const ToolRequired := "Tool name is required"
  const ToolBadChars := "Tool name must contain only lowercase letters, numbers, and hyphens"
  const ToolExists := "Tool with this name already exists"

  /** `/^[a-z0-9-]+$/`. */
  predicate MatchesToolNamePattern(s: string) {
    |s| >= 1 && forall i :: 0 <= i < |s| ==> IsLowerAlnum(s[i]) || s[i] == '-'
  }

  /** `validateToolName`; `existingNames` are the names of the tools of the existing
      manifest (none when there is no manifest or it has no tools). */
  function ValidateToolName(input: string, existingNames: seq<string>): (r: Verdict)
    ensures r.Accepted? ==> MatchesToolNamePattern(input) && input !in existingNames
    ensures r.Rejected? ==> r.message == ToolRequired || r.message == ToolBadChars || r.message == ToolExists
  {
    if IsBlank(input) then Rejected(ToolRequired)
    else if !MatchesToolNamePattern(input) then Rejected(ToolBadChars)
    else if input in existingNames then Rejected(ToolExists)
    else Accepted
  }

  /** A new name of the right characters is accepted; one already used is reported as
      such. */
  lemma ToolNameAcceptedIff(input: string, existingNames: seq<string>)
    ensures ValidateToolName(input, existingNames).Accepted? <==>
              MatchesToolNamePattern(input) && input !in existingNames
    ensures MatchesToolNamePattern(input) && input in existingNames ==>
              ValidateToolName(input, existingNames) == Rejected(ToolExists)
  {
    if MatchesToolNamePattern(input) {
      assert input[0] == '-' || IsLowerAlnum(input[0]);
      NotBlankAt(input, 0);
    }
  }

  // ---------------------------------------------------------------- integration name normalising

  const DefaultIntegrationName := "partner-integration"

  predicate IsSlugChar(c: char) {
    IsLowerAlnum(c) || c == '-'
  }

  /** `[^a-z0-9]`. */
  predicate NotLowerAlnum(c: char) {
    !IsLowerAlnum(c)
  }

  predicate IsDash(c: char) {
    c == '-'
  }

  /** Slug characters with no two dashes side by side. */
  predicate IsSlugBody(s: string) {
    && (forall i :: 0 <= i < |s| ==> IsSlugChar(s[i]))
    && (forall i :: 0 <= i < |s| - 1 ==> !(s[i] == '-' && s[i + 1] == '-'))
  }

  /** A normalised name: lower-case letters, digits and single dashes, not starting or
      ending with a dash. */
  predicate IsSlug(s: string) {
    s != [] && IsSlugBody(s) && s[0] != '-' && s[|s| - 1] != '-'
  }

  /** `.replace(/^-|-$/g, '')`: one leading and one trailing dash go; a lone dash matches
      once. */
  function StripEdgeDashes(s: string): (r: string)
    ensures |r| <= |s|
  {
    DropTrailingDash(DropLeadingDash(s))
  }

  function DropLeadingDash(s: string): (r: string)
    ensures r == s || (s != [] && s[0] == '-' && r == s[1..])
  {
    if s != [] && s[0] == '-' then s[1..] else s
  }

  function DropTrailingDash(s: string): (r: string)
    ensures r == s || (s != [] && s[|s| - 1] == '-' && r == s[..|s| - 1])
  {
    if s != [] && s[|s| - 1] == '-' then s[..|s| - 1] else s
  }

  /** The first replacement leaves slug characters only, with no two dashes together. */
  lemma CollapsedIsSlugBody(lowered: string)
    ensures IsSlugBody(ReplaceRuns(lowered, NotLowerAlnum, '-'))
  {
    var c := ReplaceRuns(lowered, NotLowerAlnum, '-');
    ReplaceRunsCollapses(lowered, NotLowerAlnum, '-');
    forall i | 0 <= i < |c| ensures IsSlugChar(c[i]) {
      assert c[i] in c;
    }
  }

  /** On a slug body the `/-+/g` replacement changes nothing. */
  lemma DashRunsOfSlugBody(c: string)
    requires IsSlugBody(c)
    ensures ReplaceRuns(c, IsDash, '-') == c
  {
    assert RunsCollapsed(c, IsDash, '-');
    ReplaceRunsOfCollapsed(c, IsDash, '-');
  }

  lemma SlugBodySlice(c: string, i: nat, j: nat)
    requires IsSlugBody(c) && i <= j <= |c|
    ensures IsSlugBody(c[i..j])
  {
    var t := c[i..j];
    assert forall k :: 0 <= k < |t| ==> t[k] == c[i + k];
  }

  /** Without its leading dash a slug body does not start with one. */
  lemma DropLeadingOfSlugBody(c: string)
    requires IsSlugBody(c)
    ensures var a := DropLeadingDash(c); IsSlugBody(a) && (a == [] || a[0] != '-')
  {
    if c != [] && c[0] == '-' {
      SlugBodySlice(c, 1, |c|);
      if |c| > 1 {
        assert c[1..][0] == c[1];
      }
    }
  }

  /** Then without its trailing dash it is a slug, or empty. */
  lemma DropTrailingOfSlugBody(a: string)
    requires IsSlugBody(a) && (a == [] || a[0] != '-')
    ensures var r := DropTrailingDash(a); r == [] || IsSlug(r)
  {
    if a != [] && a[|a| - 1] == '-' {
      SlugBodySlice(a, 0, |a| - 1);
      var r := a[..|a| - 1];
      if r != [] {
        assert r[0] == a[0];
        assert r[|r| - 1] == a[|a| - 2];
      }
    }
  }

  /** Stripping the edge dashes of a slug body leaves a slug or nothing. */
  lemma StripSlugBody(c: string)
    requires IsSlugBody(c)
    ensures StripEdgeDashes(c) == [] || IsSlug(StripEdgeDashes(c))
  {
    DropLeadingOfSlugBody(c);
    DropTrailingOfSlugBody(DropLeadingDash(c));
  }

  /** `normalizeIntegrationName`: an empty input gives the default; otherwise the trimmed,
      lower-cased input with every run of other characters turned into one dash and a
      dash at either end removed, or the default if nothing is left. */
  function NormalizeIntegrationName(value: string): (r: string)
    ensures IsSlug(r)
  {
    DefaultIsSlug(DefaultIntegrationName);
    if value == [] then DefaultIntegrationName
    else
      var n := StripEdgeDashes(ReplaceRuns(ReplaceRuns(Lower(Trim(value)), NotLowerAlnum, '-'), IsDash, '-'));
      StrippedIsSlug(Lower(Trim(value)));
      if n == [] then DefaultIntegrationName else n
  }

  /** The default name is itself a slug. */
  lemma DefaultIsSlug(s: string)
    requires s == DefaultIntegrationName
    ensures IsSlug(s)
  {
  }

  /** The three replacements give a slug or nothing. */
  lemma StrippedIsSlug(lowered: string)
    ensures var n := StripEdgeDashes(ReplaceRuns(ReplaceRuns(lowered, NotLowerAlnum, '-'), IsDash, '-'));
            n == [] || IsSlug(n)
  {
    var collapsed := ReplaceRuns(lowered, NotLowerAlnum, '-');
    CollapsedIsSlugBody(lowered);
    DashRunsOfSlugBody(collapsed);
    StripSlugBody(collapsed);
  }

  /** A slug normalises to itself, so normalising twice is normalising once. */
  lemma NormalizeSlug(s: string)
    requires IsSlug(s)
    ensures NormalizeIntegrationName(s) == s
  {
    TrimOfTrimmed(s);
    assert Lower(s) == s;
    assert RunsCollapsed(s, NotLowerAlnum, '-');
    ReplaceRunsOfCollapsed(s, NotLowerAlnum, '-');
    ReplaceRunsOfCollapsed(s, IsDash, '-');
  }

  lemma NormalizeIdempotent(value: string)
    ensures NormalizeIntegrationName(NormalizeIntegrationName(value)) == NormalizeIntegrationName(value)
  {
    NormalizeSlug(NormalizeIntegrationName(value));
  }

  /** A run made only of class characters is replaced by one `rep`. */
  lemma ReplaceAllClass(s: string, inClass: char -> bool, rep: char)
    requires s != [] && forall i :: 0 <= i < |s| ==> inClass(s[i])
    ensures ReplaceRuns(s, inClass, rep) == [rep]
  {
  }

  /** A name without a letter or digit normalises to the default. */
  lemma NoAlphanumericGivesDefault(value: string)
    requires forall i :: 0 <= i < |value| ==> !IsAsciiAlnum(value[i])
    ensures NormalizeIntegrationName(value) == DefaultIntegrationName
  {
    if value != [] {
      TrimShape(value);
      var t := Trim(value);
      var l := Lower(t);
      assert forall i :: 0 <= i < |t| ==> t[i] in value;
      if l != [] {
        assert forall i :: 0 <= i < |l| ==> NotLowerAlnum(l[i]);
        ReplaceAllClass(l, NotLowerAlnum, '-');
      }
    }
  }

  /** What normalising keeps: a name with no ASCII letter or digit gives the default; any
      other name gives exactly its letters and digits, lower-cased and in their order, with
      single dashes between them (`IsSlug`). */
  lemma NormalizeContent(value: string)
    ensures Keep(Lower(value), IsLowerAlnum) == [] ==> NormalizeIntegrationName(value) == DefaultIntegrationName
    ensures Keep(Lower(value), IsLowerAlnum) != [] ==>
              Keep(NormalizeIntegrationName(value), IsLowerAlnum) == Keep(Lower(value), IsLowerAlnum)
  {
    if value != [] {
      var n := StripEdgeDashes(ReplaceRuns(ReplaceRuns(Lower(Trim(value)), NotLowerAlnum, '-'), IsDash, '-'));
      SlugStepsKeep(Lower(Trim(value)));
      LowerTrimKeeps(value);
      if n != [] {
        StrippedIsSlug(Lower(Trim(value)));
        KeepHead(n, IsLowerAlnum);
      }
    }
  }

  /** The two replacements and the edge-dash removal keep every letter and digit, in order. */
  lemma SlugStepsKeep(lowered: string)
    ensures var n := StripEdgeDashes(ReplaceRuns(ReplaceRuns(lowered, NotLowerAlnum, '-'), IsDash, '-'));
            Keep(n, IsLowerAlnum) == Keep(lowered, IsLowerAlnum)
  {
    var c := ReplaceRuns(lowered, NotLowerAlnum, '-');
    ReplaceRunsKeeps(lowered, NotLowerAlnum, '-', IsLowerAlnum);
    ReplaceRunsKeeps(c, IsDash, '-', IsLowerAlnum);
    StripKeeps(ReplaceRuns(c, IsDash, '-'));
  }

  /** Removing edge dashes drops no letter or digit. */
  lemma StripKeeps(d: string)
    ensures Keep(StripEdgeDashes(d), IsLowerAlnum) == Keep(d, IsLowerAlnum)
  {
    var a := DropLeadingDash(d);
    if d != [] && d[0] == '-' {
      ConsSplit(d, []);
      assert d == [d[0]] + d[1..];
      KeepCons(d[0], d[1..], IsLowerAlnum);
      EmptyLeft(Keep(d[1..], IsLowerAlnum));
    }
    if a != [] && a[|a| - 1] == '-' {
      var p := a[..|a| - 1];
      SplitTwo(a, |a| - 1);
      KeepAppend(p, a[|a| - 1..], IsLowerAlnum);
      KeepNone(a[|a| - 1..], IsLowerAlnum);
      EmptyRight(Keep(p, IsLowerAlnum));
    }
  }

  /** Trimming drops no letter or digit, so the lower-cased trimmed name keeps the same
      letters and digits as the lower-cased name. */
  lemma LowerTrimKeeps(value: string)
    ensures Keep(Lower(Trim(value)), IsLowerAlnum) == Keep(Lower(value), IsLowerAlnum)
  {
    TrimShape(value);
    var i, j :| 0 <= i <= j <= |value| && Trim(value) == value[i..j] && AllWhitespace(value[..i]) && AllWhitespace(value[j..]);
    var p, m, q := value[..i], value[i..j], value[j..];
    SplitAround(value, i, j);
    LowerAppend(p + m, q);
    LowerAppend(p, m);
    LowerOfWhitespace(p);
    LowerOfWhitespace(q);
    KeepAppend(Lower(p) + Lower(m), Lower(q), IsLowerAlnum);
    KeepAppend(Lower(p), Lower(m), IsLowerAlnum);
    EmptyAround(Keep(Lower(m), IsLowerAlnum));
  }

  lemma LowerAppend(a: string, b: string)
    ensures Lower(a + b) == Lower(a) + Lower(b)
  {
    var l, r := Lower(a + b), Lower(a) + Lower(b);
    forall k | 0 <= k < |l| ensures l[k] == r[k] {
      if k < |a| {
        assert (a + b)[k] == a[k];
      } else {
        assert (a + b)[k] == b[k - |a|];
      }
    }
  }

  /** Lower-casing leaves white space alone, so white space holds no letter or digit. */
  lemma LowerOfWhitespace(w: string)
    requires AllWhitespace(w)
    ensures Keep(Lower(w), IsLowerAlnum) == []
  {
    var l := Lower(w);
    forall k | 0 <= k < |l| ensures !IsLowerAlnum(l[k]) {
      assert l[k] == LowerChar(w[k]);
    }
    KeepNone(l, IsLowerAlnum);
  }

  /** Two runs of ASCII letters and digits separated by one space normalise to the two runs
      lower-cased and joined by one dash. */
  lemma SpacedWordsNormalize(w1: string, w2: string)
    requires w1 != [] && w2 != []
    requires forall i :: 0 <= i < |w1| ==> IsAsciiAlnum(w1[i])
    requires forall i :: 0 <= i < |w2| ==> IsAsciiAlnum(w2[i])
    ensures NormalizeIntegrationName(w1 + " " + w2) == Lower(w1) + "-" + Lower(w2)
  {
    var value := w1 + " " + w2;
    AlnumNotWhitespace(w1[0]);
    AlnumNotWhitespace(w2[|w2| - 1]);
    JoinedEnds(w1, ' ', w2);
    SpacedWordsSlug(w1, w2);
    NormalizeUntrimmed(value, Lower(w1) + "-" + Lower(w2));
  }

  lemma AlnumNotWhitespace(c: char)
    requires IsAsciiAlnum(c)
    ensures !IsJsWhitespace(c)
  {
  }

  lemma SpacedWordsSlug(w1: string, w2: string)
    requires w1 != [] && w2 != []
    requires forall i :: 0 <= i < |w1| ==> IsAsciiAlnum(w1[i])
    requires forall i :: 0 <= i < |w2| ==> IsAsciiAlnum(w2[i])
    ensures var l := Lower(w1 + " " + w2);
            StripEdgeDashes(ReplaceRuns(ReplaceRuns(l, NotLowerAlnum, '-'), IsDash, '-')) == Lower(w1) + "-" + Lower(w2)
  {
    AlnumLowers(w1);
    AlnumLowers(w2);
    LowerJoin(w1, w2);
    LoweredWordsSlug(Lower(w1), Lower(w2));
  }

  /** A name with nothing to trim whose replacements leave text normalises to that text. */
  lemma NormalizeUntrimmed(value: string, n: string)
    requires value != [] && !IsJsWhitespace(value[0]) && !IsJsWhitespace(value[|value| - 1])
    requires n != [] && StripEdgeDashes(ReplaceRuns(ReplaceRuns(Lower(value), NotLowerAlnum, '-'), IsDash, '-')) == n
    ensures NormalizeIntegrationName(value) == n
  {
    TrimOfTrimmed(value);
  }

  /** Two runs of lower-case letters and digits around one space: the space becomes a dash,
      and there is no edge dash to remove. */
  lemma LoweredWordsSlug(l1: string, l2: string)
    requires l1 != [] && l2 != []
    requires forall i :: 0 <= i < |l1| ==> IsLowerAlnum(l1[i])
    requires forall i :: 0 <= i < |l2| ==> IsLowerAlnum(l2[i])
    ensures StripEdgeDashes(ReplaceRuns(ReplaceRuns(l1 + " " + l2, NotLowerAlnum, '-'), IsDash, '-')) == l1 + "-" + l2
  {
    LoweredWordsDashed(l1, l2);
    assert IsLowerAlnum(l1[0]) && IsLowerAlnum(l2[|l2| - 1]);
    InnerDashKept(l1, l2);
  }

  lemma LoweredWordsDashed(l1: string, l2: string)
    requires forall i :: 0 <= i < |l1| ==> IsLowerAlnum(l1[i])
    requires forall i :: 0 <= i < |l2| ==> IsLowerAlnum(l2[i])
    ensures ReplaceRuns(ReplaceRuns(l1 + " " + l2, NotLowerAlnum, '-'), IsDash, '-') == l1 + "-" + l2
  {
    SeparatorToDash(l1, ' ', l2, NotLowerAlnum);
    SeparatorToDash(l1, '-', l2, IsDash);
  }

  /** One separator of a class between two runs of letters and digits becomes one dash. */
  lemma SeparatorToDash(l1: string, sep: char, l2: string, inClass: char -> bool)
    requires inClass(sep)
    requires forall c :: inClass(c) ==> !IsLowerAlnum(c)
    requires forall i :: 0 <= i < |l1| ==> IsLowerAlnum(l1[i])
    requires forall i :: 0 <= i < |l2| ==> IsLowerAlnum(l2[i])
    ensures ReplaceRuns(l1 + [sep] + l2, inClass, '-') == l1 + "-" + l2
  {
    ReplaceRunsOneSeparator(l1, sep, l2, inClass, '-');
  }

  /** A dash between two texts that are not dashes at their outer ends is not an edge dash. */
  lemma InnerDashKept(l1: string, l2: string)
    requires l1 != [] && l2 != [] && l1[0] != '-' && l2[|l2| - 1] != '-'
    ensures StripEdgeDashes(l1 + "-" + l2) == l1 + "-" + l2
  {
    JoinedEnds(l1, '-', l2);
  }

  /** Lower-casing ASCII letters and digits gives lower-case letters and digits. */
  lemma AlnumLowers(w: string)
    requires forall i :: 0 <= i < |w| ==> IsAsciiAlnum(w[i])
    ensures forall i :: 0 <= i < |w| ==> IsLowerAlnum(Lower(w)[i])
  {
  }

  lemma LowerJoin(w1: string, w2: string)
    ensures Lower(w1 + " " + w2) == Lower(w1) + " " + Lower(w2)
  {
    var l := w1 + " " + w2;
    var r := Lower(w1) + " " + Lower(w2);
    forall k | 0 <= k < |l| ensures Lower(l)[k] == r[k] {
      if k < |w1| {
        assert l[k] == w1[k];
      } else if k > |w1| {
        assert l[k] == w2[k - |w1| - 1];
      }
    }
  }

  /** A name as a user might type it, and its normalised form. */
  const ExampleIntegrationName := "My App"
  const ExampleNormalizedName := "my-app"

  /** "My App" normalises to "my-app". */
  lemma NormalizeExample(value: string)
    requires value == ExampleIntegrationName
    ensures NormalizeIntegrationName(value) == ExampleNormalizedName
  {
    var w1, w2 := value[..2], value[3..];
    ExampleWords(value, w1, w2);
    SpacedWordsNormalize(w1, w2);
    LowerExample(w1, w2);
  }

  lemma ExampleWords(value: string, w1: string, w2: string)
    requires value == ExampleIntegrationName && w1 == value[..2] && w2 == value[3..]
    ensures value == w1 + " " + w2 && w1 == "My" && w2 == "App"
    ensures forall i :: 0 <= i < |w1| ==> IsAsciiAlnum(w1[i])
    ensures forall i :: 0 <= i < |w2| ==> IsAsciiAlnum(w2[i])
  {
  }

  lemma LowerExample(w1: string, w2: string)
    requires w1 == "My" && w2 == "App"
    ensures Lower(w1) + "-" + Lower(w2) == ExampleNormalizedName
  {
    var u := Lower(w1) + "-" + Lower(w2);
    assert u[0] == 'm' && u[1] == 'y' && u[2] == '-';
    assert u[3] == 'a' && u[4] == 'p' && u[5] == 'p';
  }

  /** A normalised name is a well-formed tool name. */
  lemma NormalizedIsToolName(value: string)
    ensures MatchesToolNamePattern(NormalizeIntegrationName(value))
  {
  }

  // ---------------------------------------------------------------- comma-separated lists

  /** A piece the sanitiser keeps: not empty, nothing to trim. */
  predicate IsTrimmedPiece(x: string) {
    x != [] && Trim(x) == x
  }

  /** The trimmed pieces that are not empty, in order. */
  function NonEmptyTrimmed(parts: seq<string>): (r: seq<string>)
    ensures |r| <= |parts|
    ensures forall x :: x in r ==> IsTrimmedPiece(x)
  {
    if parts == [] then []
    else
      var rest := NonEmptyTrimmed(parts[1..]);
      var t := Trim(parts[0]);
      if t == [] then rest
      else
        TrimIdempotent(parts[0]);
        [t] + rest
  }

  predicate Lacks(x: string, c: char) {
    c !in x
  }

  /** Trimming only removes characters. */
  lemma TrimmedLacks(s: string, c: char)
    requires Lacks(s, c)
    ensures Lacks(Trim(s), c)
  {
    TrimShape(s);
  }

  /** A character that no piece holds is in none of the kept pieces. */
  lemma {:induction false} NonEmptyTrimmedLacks(parts: seq<string>, c: char)
    requires forall i :: 0 <= i < |parts| ==> Lacks(parts[i], c)
    ensures forall x :: x in NonEmptyTrimmed(parts) ==> Lacks(x, c)
  {
    if parts != [] {
      var rest := NonEmptyTrimmed(parts[1..]);
      forall i | 0 <= i < |parts[1..]| ensures Lacks(parts[1..][i], c) {
        assert parts[1..][i] == parts[i + 1];
      }
      NonEmptyTrimmedLacks(parts[1..], c);
      TrimmedLacks(parts[0], c);
      var t := Trim(parts[0]);
      assert NonEmptyTrimmed(parts) == (if t == [] then [] else [t]) + rest;
      PrependLacking(if t == [] then [] else [t], rest, c);
    }
  }

  lemma PrependLacking(front: seq<string>, rest: seq<string>, c: char)
    requires forall x :: x in front ==> Lacks(x, c)
    requires forall x :: x in rest ==> Lacks(x, c)
    ensures forall x :: x in front + rest ==> Lacks(x, c)
  {
  }

  /** `sanitizeListInput`: split on ',', trim each piece and drop the empty ones; what is
      left holds no comma. */
  function SanitizeListInput(value: string): (r: seq<string>)
    ensures forall x :: x in r ==> IsTrimmedPiece(x) && Lacks(x, ',')
  {
    var parts := Split(value, ',');
    NonEmptyTrimmedLacks(parts, ',');
    NonEmptyTrimmed(parts)
  }

  /** An item the sanitiser keeps as it is: not empty, no white space at either end, no
      comma. */
  predicate IsCleanItem(x: string) {
    x != [] && !IsJsWhitespace(x[0]) && !IsJsWhitespace(x[|x| - 1]) && Lacks(x, ',')
  }

  lemma {:induction false} SplitWithoutSeparator(s: string, sep: char)
    requires Lacks(s, sep)
    ensures Split(s, sep) == [s]
    decreases |s|
  {
    if s != [] {
      SplitWithoutSeparator(s[1..], sep);
      assert [s[0]] + s[1..] == s;
    }
  }

  lemma {:induction false} SplitAtFirst(a: string, b: string, sep: char)
    requires Lacks(a, sep)
    ensures Split(a + [sep] + b, sep) == [a] + Split(b, sep)
    decreases |a|
  {
    var s := a + [sep] + b;
    if a == [] {
      assert s == [sep] + b;
      assert s[1..] == b;
    } else {
      SplitAtFirst(a[1..], b, sep);
      assert s[1..] == a[1..] + [sep] + b;
      assert [a[0]] + a[1..] == a;
    }
  }

  /** Items joined with ", " (as the default answer of the identity-value prompt is) read
      back as the same items. */
  lemma SanitizeJoined(items: seq<string>)
    requires |items| >= 1 && forall k :: 0 <= k < |items| ==> IsCleanItem(items[k])
    ensures SanitizeListInput(Join(items, ", ")) == items
  {
    var j := Join(items, ", ");
    assert "" + j == j;
    SanitizeJoinedAfter(items, "");
    assert NonEmptyTrimmed(Split(j, ',')) == items;
  }

  lemma {:induction false} SanitizeJoinedAfter(items: seq<string>, lead: string)
    requires |items| >= 1 && forall k :: 0 <= k < |items| ==> IsCleanItem(items[k])
    requires AllWhitespace(lead) && Lacks(lead, ',')
    ensures NonEmptyTrimmed(Split(lead + Join(items, ", "), ',')) == items
    decreases |items|
  {
    assert IsCleanItem(items[0]);
    if |items| == 1 {
      SanitizeSingleAfter(items, lead);
    } else {
      var rest := items[1..];
      forall k | 0 <= k < |rest| ensures IsCleanItem(rest[k]) {
        assert rest[k] == items[k + 1];
      }
      SanitizeJoinedAfter(rest, " ");
      SanitizeStep(items, lead);
    }
  }

  lemma SanitizeSingleAfter(items: seq<string>, lead: string)
    requires |items| == 1 && IsCleanItem(items[0])
    requires AllWhitespace(lead) && Lacks(lead, ',')
    ensures NonEmptyTrimmed(Split(lead + Join(items, ", "), ',')) == items
  {
    var x := items[0];
    PaddedItem(lead, x);
    assert Join(items, ", ") == x;
    SplitWithoutSeparator(lead + x, ',');
    NonEmptyTrimmedCons(lead + x, []);
    SingleTrimmed(lead + x, x);
    assert items == [x];
  }

  lemma SanitizeStep(items: seq<string>, lead: string)
    requires |items| >= 2 && IsCleanItem(items[0])
    requires AllWhitespace(lead) && Lacks(lead, ',')
    requires NonEmptyTrimmed(Split(" " + Join(items[1..], ", "), ',')) == items[1..]
    ensures NonEmptyTrimmed(Split(lead + Join(items, ", "), ',')) == items
  {
    var x := items[0];
    PaddedItem(lead, x);
    var tail := " " + Join(items[1..], ", ");
    JoinCons(lead, items);
    SplitAtFirst(lead + x, tail, ',');
    NonEmptyTrimmedCons(lead + x, Split(tail, ','));
    HeadAndTail(items);
  }

  /** White space before a clean item trims away, and neither holds a comma. */
  lemma PaddedItem(lead: string, x: string)
    requires AllWhitespace(lead) && Lacks(lead, ',') && IsCleanItem(x)
    ensures Trim(lead + x) == x && Lacks(lead + x, ',')
  {
    TrimStartOfWhitespace(lead, x);
    TrimOfTrimmed(x);
    assert TrimEnd(x) == x;
  }

  lemma SingleTrimmed(p: string, x: string)
    requires Trim(p) == x && x != []
    ensures NonEmptyTrimmed([p]) == [x]
  {
    NonEmptyTrimmedCons(p, []);
    assert [p] + [] == [p];
  }

  /** A first piece that trims to something is kept, trimmed, ahead of the rest. */
  lemma NonEmptyTrimmedCons(p: string, ps: seq<string>)
    requires Trim(p) != []
    ensures NonEmptyTrimmed([p] + ps) == [Trim(p)] + NonEmptyTrimmed(ps)
  {
    assert ([p] + ps)[1..] == ps;
  }

  /** Joining two or more items puts the separator after the first. */
  lemma JoinCons(lead: string, items: seq<string>)
    requires |items| >= 2
    ensures lead + Join(items, ", ") == (lead + items[0]) + [','] + (" " + Join(items[1..], ", "))
  {
    var j := Join(items[1..], ", ");
    assert Join(items, ", ") == items[0] + ", " + j;
    Regroup5(lead, items[0], ", ", j);
  }

  lemma Regroup5(a: string, x: string, sep: string, j: string)
    requires sep == ", "
    ensures a + (x + sep + j) == (a + x) + [','] + (" " + j)
  {
    assert sep == [','] + " ";
  }

  lemma HeadAndTail(items: seq<string>)
    requires |items| >= 1
    ensures items == [items[0]] + items[1..]
  {
  }

  // ---------------------------------------------------------------- manifest fields

  /** `ManifestFieldConfig`. */
  datatype ManifestField = ManifestField(
    fieldType: string,
    description: string,
    required: YesNo,
    defaultValue: Option<string>)

  /** `buildManifestField`: the default value is stored trimmed, and only when it is
      given and not blank. */
  function BuildManifestField(fieldType: string, description: string, required: YesNo, defaultValue: Option<string>): (f: ManifestField)
    ensures f.fieldType == fieldType && f.description == description && f.required == required
    ensures f.defaultValue.Some? <==> defaultValue.Some? && !IsBlank(defaultValue.value)
  {
    var d := if defaultValue.Some? && !IsBlank(defaultValue.value) then Some(Trim(defaultValue.value)) else None;
    ManifestField(fieldType, description, required, d)
  }

  /** A stored default is not blank and has nothing to trim, so building a field again from
      its own parts gives the same field. */
  lemma StoredDefaultIsClean(fieldType: string, description: string, required: YesNo, defaultValue: Option<string>)
    ensures var f := BuildManifestField(fieldType, description, required, defaultValue);
            && (f.defaultValue.Some? ==> f.defaultValue.value == Trim(defaultValue.value) && !IsBlank(f.defaultValue.value))
            && BuildManifestField(f.fieldType, f.description, f.required, f.defaultValue) == f
  {
    if defaultValue.Some? {
      TrimIdempotent(defaultValue.value);
    }
  }

  /** A blank default is not stored at all. */
  lemma BlankDefaultOmitted(fieldType: string, description: string, required: YesNo, pad: string)
    requires AllWhitespace(pad)
    ensures BuildManifestField(fieldType, description, required, Some(pad)).defaultValue.None?
  {
    BlankIffAllWhitespace(pad);
  }
}

/** The input types the partner integration CLI offers for a tool, and their descriptions
    (kept apart from the validators, whose proofs do not need the two tables). */
module PromptInputTypes {

  const DefaultInputDescription := "Data input for processing"

  /** The values of `PARTNER_INPUT_TYPE_CHOICES`, in order. */
  const InputTypeValues: seq<string> := [
    "DSP/Note", "DSP/IterativeTranscript", "DSP/IterativeAudio", "DSP/Transcript",
    "DSP/Patient", "DSP/Encounter", "DSP/Practitioner", "DSP/Visit", "DSP/MedicalCode",
    "DSP/Document", "EHR/PatientRecord", "EHR/Appointment", "EHR/Medication",
    "EHR/LabResult", "API/Response", "API/Request", "Custom/Data", "DSP"
  ]

  /** The description table of `getInputDescription`. */
  const InputDescriptions: map<string, string> := map[
    "DSP/Note" := "Clinical note or documentation",
    "DSP/IterativeTranscript" := "Real-time speech transcript data",
    "DSP/IterativeAudio" := "Real-time audio stream data",
    "DSP/Transcript" := "Complete speech transcript",
    "DSP/Patient" := "Patient demographic and clinical information",
    "DSP/Encounter" := "Healthcare encounter or visit information",
    "DSP/Practitioner" := "Healthcare provider information",
    "DSP/Visit" := "Patient visit or appointment data",
    "DSP/MedicalCode" := "Medical coding information (ICD, SNOMED, etc.)",
    "DSP/Document" := "Clinical document or report",
    "EHR/PatientRecord" := "Electronic health record patient data",
    "EHR/Appointment" := "Appointment or scheduling data",
    "EHR/Medication" := "Medication and prescription information",
    "EHR/LabResult" := "Laboratory test results and values",
    "API/Response" := "API response data from external systems",
    "API/Request" := "API request data for external systems",
    "Custom/Data" := "Custom data format specific to integration",
    "DSP" := "Generic Dragon Standard Payload data"
  ]

  /** `getInputDescription`: the table's text for a listed type (all are non-empty), the
      general text otherwise. */
  function GetInputDescription(dataType: string): (r: string)
    ensures dataType !in InputDescriptions ==> r == DefaultInputDescription
    ensures dataType in InputDescriptions ==> r == InputDescriptions[dataType]
  {
    if dataType in InputDescriptions && InputDescriptions[dataType] != "" then InputDescriptions[dataType]
    else DefaultInputDescription
  }

  /** Every input type offered by the prompt has its own description, and the table
      describes nothing else. */
  lemma EveryChoiceDescribed(values: seq<string>, descriptions: map<string, string>)
    requires values == InputTypeValues && descriptions == InputDescriptions
    ensures forall k :: 0 <= k < |values| ==> values[k] in descriptions
    ensures forall t :: t in descriptions ==> t in values
  {
  }
}
