/** The company-information form: URL normalisation, the per-field length schema, and the
    normalise-then-validate step of its submit. Lengths are JavaScript `length`s (UTF-16 code
    units). The e-mail format check is a parameter `isEmail`. */
module CompanyInfo {
  import opened Common
  import opened JsText

  /** The trimmed text begins with `http://` or `https://`, ignoring ASCII case: the regular
      expression `/^https?:\/\//i`. */
  predicate HasHttpScheme(s: string) {
    StartsWith(LowerAscii(s), "http://") || StartsWith(LowerAscii(s), "https://")
  }

  /** `normalizeUrl`: blank input gives "", a URL with a scheme is only trimmed, anything else is
      trimmed and given `https://`. */
  function NormalizeUrl(url: string): (r: string)
    ensures r == [] <==> forall i :: 0 <= i < |url| ==> IsJsWhiteSpace(url[i])
    ensures r != [] ==> HasHttpScheme(r) && IsTrimmed(r)
    ensures HasHttpScheme(Trim(url)) ==> r == Trim(url)
    ensures Trim(url) != [] && !HasHttpScheme(Trim(url)) ==> r == "https://" + Trim(url)
  {
    if url == [] then []
    else
      var trimmed := Trim(url);
      if trimmed == [] then []
      else if HasHttpScheme(trimmed) then trimmed
      else
        PrefixedHasScheme(trimmed);
        "https://" + trimmed
  }

  /** Putting `https://` in front of a trimmed, non-empty text gives a trimmed URL with a scheme. */
  lemma PrefixedHasScheme(t: string)
    requires t != [] && IsTrimmed(t)
    ensures HasHttpScheme("https://" + t) && IsTrimmed("https://" + t)
  {
    var u := "https://" + t;
    var l := LowerAscii(u);
    assert forall i :: 0 <= i < 8 ==> l[i] == u[i] == "https://"[i];
    assert l[..8] == "https://";
    assert u[|u| - 1] == t[|t| - 1];
  }

  /** `normalizeUrl` is idempotent. */
  lemma NormalizeUrlIdempotent(url: string)
    ensures NormalizeUrl(NormalizeUrl(url)) == NormalizeUrl(url)
  {
    var r := NormalizeUrl(url);
    if r != [] {
      TrimOfTrimmed(r);
    }
  }

  /** A trimmed, non-empty text without a scheme is given `https://` and nothing else. */
  lemma NormalizeBare(t: string)
    requires t != [] && IsTrimmed(t) && !HasHttpScheme(t)
    ensures NormalizeUrl(t) == "https://" + t
  {
    TrimOfTrimmed(t);
  }

  /** `normalizeUrl` gives a bare domain the `https://` scheme. */
  lemma NormalizeBareDomain()
    ensures NormalizeUrl("example.com") == "https://" + "example.com"
  {
    BareDomainHasNoScheme();
    NormalizeBare("example.com");
  }

  lemma BareDomainHasNoScheme()
    ensures !HasHttpScheme("example.com")
  {
    var l := LowerAscii("example.com");
    assert l[0] == 'e';
    assert l[..7][0] != "http://"[0];
    assert l[..8][0] != "https://"[0];
  }

  /** A trimmed text that already has a scheme is kept as it is. */
  lemma NormalizeSchemed(t: string)
    requires IsTrimmed(t) && HasHttpScheme(t)
    ensures NormalizeUrl(t) == t
  {
    TrimOfTrimmed(t);
  }

  /** `normalizeUrl` keeps an upper-case scheme as it is. */
  lemma NormalizeUpperScheme()
    ensures NormalizeUrl("HTTP://x") == "HTTP://x"
  {
    UpperSchemeRecognised();
    NormalizeSchemed("HTTP://x");
  }

  lemma UpperSchemeRecognised()
    ensures IsTrimmed("HTTP://x") && HasHttpScheme("HTTP://x")
  {
    var l := LowerAscii("HTTP://x");
    assert l[..7] == "http://" by {
      assert l[0] == 'h' && l[1] == 't' && l[2] == 't' && l[3] == 'p';
      assert l[4] == ':' && l[5] == '/' && l[6] == '/';
    }
  }

  /** The form's fields, all strings. */
  datatype CompanyInfo = CompanyInfo(
    companyName: string, slogan: string, phone: string, email: string, address: string,
    googleMapsUrl: string, website: string, description: string, facebook: string,
    instagram: string, twitter: string, tiktok: string, youtube: string, linkedin: string,
    whatsapp: string)

  datatype Field =
    | CompanyName | Slogan | Phone | Email | Address | GoogleMapsUrl | Website | Description
    | Facebook | Instagram | Twitter | Tiktok | Youtube | Linkedin | Whatsapp

  /** The order of the schema's keys, which is the order its issues are reported in. */
  const SchemaOrder: seq<Field> := [CompanyName, Slogan, Phone, Email, Address, GoogleMapsUrl,
    Website, Description, Facebook, Instagram, Twitter, Tiktok, Youtube, Linkedin, Whatsapp]

  function Get(info: CompanyInfo, f: Field): string {
    match f
    case CompanyName => info.companyName
    case Slogan => info.slogan
    case Phone => info.phone
    case Email => info.email
    case Address => info.address
    case GoogleMapsUrl => info.googleMapsUrl
    case Website => info.website
    case Description => info.description
    case Facebook => info.facebook
    case Instagram => info.instagram
    case Twitter => info.twitter
    case Tiktok => info.tiktok
    case Youtube => info.youtube
    case Linkedin => info.linkedin
    case Whatsapp => info.whatsapp
  }

  /** The `.max` bound of each field. */
  function MaxLength(f: Field): nat {
    match f
    case CompanyName => 100
    case Slogan => 200
    case Phone => 20
    case Email => 100
    case Address => 200
    case GoogleMapsUrl => 500
    case Website => 100
    case Description => 1000
    case Facebook => 100
    case Instagram => 100
    case Twitter => 100
    case Tiktok => 100
    case Youtube => 100
    case Linkedin => 100
    case Whatsapp => 20
  }

  /** The `.min` bound: only the company name has one. */
  function MinLength(f: Field): nat {
    if f == CompanyName then 1 else 0
  }

  /** A validation issue. The company name's and the e-mail's carry the form's own messages; the
      others carry Zod's default message, which is not modelled. */
  datatype Issue = TooShort(field: Field) | InvalidEmail | TooLong(field: Field)

  /** The message `handleSubmit` shows for an issue, when the schema gives one. */
  function Message(issue: Issue): Option<string> {
    match issue
    case TooShort(_) => Some("Le nom est requis")
    case InvalidEmail => Some("Email invalide")
    case TooLong(_) => None
  }

  /** The first issue of one field, in the order its checks are declared (`.min` or `.email`
      before `.max`). */
  function FieldIssue(info: CompanyInfo, f: Field, isEmail: string -> bool): (r: Option<Issue>)
    ensures r.None? <==>
      MinLength(f) <= Utf16Length(Get(info, f)) <= MaxLength(f) && (f == Email ==> isEmail(info.email))
  {
    var n := Utf16Length(Get(info, f));
    if n < MinLength(f) then Some(TooShort(f))
    else if f == Email && !isEmail(info.email) then Some(InvalidEmail)
    else if n > MaxLength(f) then Some(TooLong(f))
    else None
  }

  /** The first issue among `fields`, taken in order. */
  function FirstIssue(info: CompanyInfo, fields: seq<Field>, isEmail: string -> bool): (r: Option<Issue>)
    ensures r.None? <==> forall k :: 0 <= k < |fields| ==> FieldIssue(info, fields[k], isEmail).None?
    ensures r.Some? ==> exists k :: 0 <= k < |fields| && IsFirstIssue(info, fields, isEmail, k, r.value)
  {
    if fields == [] then None
    else match FieldIssue(info, fields[0], isEmail)
      case Some(issue) =>
        assert IsFirstIssue(info, fields, isEmail, 0, issue);
        Some(issue)
      case None =>
        var rest := FirstIssue(info, fields[1..], isEmail);
        if rest.Some? then
          var k :| 0 <= k < |fields| - 1 && IsFirstIssue(info, fields[1..], isEmail, k, rest.value);
          assert IsFirstIssue(info, fields, isEmail, k + 1, rest.value);
          rest
        else rest
  }

  /** `issue` is the issue of the field at `k`, and every field before it passes. */
  predicate IsFirstIssue(info: CompanyInfo, fields: seq<Field>, isEmail: string -> bool, k: nat, issue: Issue)
    requires k < |fields|
  {
    FieldIssue(info, fields[k], isEmail) == Some(issue)
    && forall j :: 0 <= j < k ==> FieldIssue(info, fields[j], isEmail).None?
  }

  /** `companySchema.parse`: the value itself when every field passes, else the first issue in
      key order (`errors[0]`). */
  function Validate(info: CompanyInfo, isEmail: string -> bool): (r: Result<CompanyInfo, Issue>)
    ensures r.Ok? ==> r.value == info
    ensures r.Ok? <==> forall k :: 0 <= k < |SchemaOrder| ==> FieldIssue(info, SchemaOrder[k], isEmail).None?
    ensures r.Err? ==>
      exists k :: 0 <= k < |SchemaOrder| && IsFirstIssue(info, SchemaOrder, isEmail, k, r.error)
  {
    match FirstIssue(info, SchemaOrder, isEmail)
    case None => Ok(info)
    case Some(issue) => Err(issue)
  }

  /** The schema's bounds written out field by field. */
  predicate WithinSchema(info: CompanyInfo, isEmail: string -> bool) {
    1 <= Utf16Length(info.companyName) <= 100
    && Utf16Length(info.slogan) <= 200
    && Utf16Length(info.phone) <= 20
    && isEmail(info.email) && Utf16Length(info.email) <= 100
    && Utf16Length(info.address) <= 200
    && Utf16Length(info.googleMapsUrl) <= 500
    && Utf16Length(info.website) <= 100
    && Utf16Length(info.description) <= 1000
    && Utf16Length(info.facebook) <= 100
    && Utf16Length(info.instagram) <= 100
    && Utf16Length(info.twitter) <= 100
    && Utf16Length(info.tiktok) <= 100
    && Utf16Length(info.youtube) <= 100
    && Utf16Length(info.linkedin) <= 100
    && Utf16Length(info.whatsapp) <= 20
  }

  /** Every field passes its checks. */
  predicate AllFieldsPass(info: CompanyInfo, isEmail: string -> bool) {
    forall f: Field :: FieldIssue(info, f, isEmail).None?
  }

  /** The key list names every field. */
  lemma SchemaOrderComplete()
    ensures forall f: Field :: f in SchemaOrder
  {
    forall f: Field
      ensures f in SchemaOrder
    {
      match f
      case CompanyName => assert SchemaOrder[0] == f;
      case Slogan => assert SchemaOrder[1] == f;
      case Phone => assert SchemaOrder[2] == f;
      case Email => assert SchemaOrder[3] == f;
      case Address => assert SchemaOrder[4] == f;
      case GoogleMapsUrl => assert SchemaOrder[5] == f;
      case Website => assert SchemaOrder[6] == f;
      case Description => assert SchemaOrder[7] == f;
      case Facebook => assert SchemaOrder[8] == f;
      case Instagram => assert SchemaOrder[9] == f;
      case Twitter => assert SchemaOrder[10] == f;
      case Tiktok => assert SchemaOrder[11] == f;
      case Youtube => assert SchemaOrder[12] == f;
      case Linkedin => assert SchemaOrder[13] == f;
      case Whatsapp => assert SchemaOrder[14] == f;
    }
  }

  /** Passing every entry of the key list is passing every field. */
  lemma SchemaPassesAllFields(info: CompanyInfo, isEmail: string -> bool)
    ensures (forall k :: 0 <= k < |SchemaOrder| ==> FieldIssue(info, SchemaOrder[k], isEmail).None?)
      <==> AllFieldsPass(info, isEmail)
  {
    SchemaOrderComplete();
    if forall k :: 0 <= k < |SchemaOrder| ==> FieldIssue(info, SchemaOrder[k], isEmail).None? {
      forall f: Field
        ensures FieldIssue(info, f, isEmail).None?
      {
        assert f in SchemaOrder;
        var k :| 0 <= k < |SchemaOrder| && SchemaOrder[k] == f;
      }
    }
  }

  /** A value within the schema's bounds passes every field. */
  lemma WithinSchemaPasses(info: CompanyInfo, isEmail: string -> bool)
    requires WithinSchema(info, isEmail)
    ensures AllFieldsPass(info, isEmail)
  {
    forall f: Field
      ensures FieldIssue(info, f, isEmail).None?
    {
    }
  }

  /** A value passing every field meets the bounds of any one field. */
  lemma FieldWithinBounds(info: CompanyInfo, f: Field, isEmail: string -> bool)
    requires AllFieldsPass(info, isEmail)
    ensures MinLength(f) <= Utf16Length(Get(info, f)) <= MaxLength(f)
    ensures f == Email ==> isEmail(info.email)
  {
    assert FieldIssue(info, f, isEmail).None?;
  }

  /** The bounds of the identity and contact fields. */
  lemma ContactFieldsWithinBounds(info: CompanyInfo, isEmail: string -> bool)
    requires AllFieldsPass(info, isEmail)
    ensures 1 <= Utf16Length(info.companyName) <= 100 && Utf16Length(info.slogan) <= 200
    ensures Utf16Length(info.phone) <= 20 && isEmail(info.email) && Utf16Length(info.email) <= 100
    ensures Utf16Length(info.address) <= 200
  {
    FieldWithinBounds(info, CompanyName, isEmail);
    FieldWithinBounds(info, Slogan, isEmail);
    FieldWithinBounds(info, Phone, isEmail);
    FieldWithinBounds(info, Email, isEmail);
    FieldWithinBounds(info, Address, isEmail);
  }

  /** The bounds of the map, website and description fields and the first two networks. */
  lemma PageFieldsWithinBounds(info: CompanyInfo, isEmail: string -> bool)
    requires AllFieldsPass(info, isEmail)
    ensures Utf16Length(info.googleMapsUrl) <= 500 && Utf16Length(info.website) <= 100
    ensures Utf16Length(info.description) <= 1000 && Utf16Length(info.facebook) <= 100
    ensures Utf16Length(info.instagram) <= 100
  {
    FieldWithinBounds(info, GoogleMapsUrl, isEmail);
    FieldWithinBounds(info, Website, isEmail);
    FieldWithinBounds(info, Description, isEmail);
    FieldWithinBounds(info, Facebook, isEmail);
    FieldWithinBounds(info, Instagram, isEmail);
  }

  /** The bounds of the remaining networks and the WhatsApp number. */
  lemma SocialFieldsWithinBounds(info: CompanyInfo, isEmail: string -> bool)
    requires AllFieldsPass(info, isEmail)
    ensures Utf16Length(info.twitter) <= 100 && Utf16Length(info.tiktok) <= 100
    ensures Utf16Length(info.youtube) <= 100 && Utf16Length(info.linkedin) <= 100
    ensures Utf16Length(info.whatsapp) <= 20
  {
    FieldWithinBounds(info, Twitter, isEmail);
    FieldWithinBounds(info, Tiktok, isEmail);
    FieldWithinBounds(info, Youtube, isEmail);
    FieldWithinBounds(info, Linkedin, isEmail);
    FieldWithinBounds(info, Whatsapp, isEmail);
  }

  /** A value passing every field is within the schema's bounds. */
  lemma PassingIsWithinSchema(info: CompanyInfo, isEmail: string -> bool)
    requires AllFieldsPass(info, isEmail)
    ensures WithinSchema(info, isEmail)
  {
    ContactFieldsWithinBounds(info, isEmail);
    PageFieldsWithinBounds(info, isEmail);
    SocialFieldsWithinBounds(info, isEmail);
  }

  /** Validation accepts exactly the values within the schema's bounds. */
  lemma ValidateAcceptsIff(info: CompanyInfo, isEmail: string -> bool)
    ensures Validate(info, isEmail).Ok? <==> WithinSchema(info, isEmail)
  {
    SchemaPassesAllFields(info, isEmail);
    if WithinSchema(info, isEmail) {
      WithinSchemaPasses(info, isEmail);
    }
    if AllFieldsPass(info, isEmail) {
      PassingIsWithinSchema(info, isEmail);
    }
  }

  /** An empty company name is reported first, with its own message. */
  lemma EmptyNameReportedFirst(info: CompanyInfo, isEmail: string -> bool)
    requires info.companyName == []
    ensures Validate(info, isEmail) == Err(TooShort(CompanyName))
    ensures Message(Validate(info, isEmail).error) == Some("Le nom est requis")
  {
    assert SchemaOrder[0] == CompanyName;
  }

  /** The two URL fields normalised, everything else as typed. */
  function Normalized(form: CompanyInfo): (n: CompanyInfo)
    ensures n.website == NormalizeUrl(form.website)
    ensures n.googleMapsUrl == NormalizeUrl(form.googleMapsUrl)
  {
    form.(website := NormalizeUrl(form.website), googleMapsUrl := NormalizeUrl(form.googleMapsUrl))
  }

  /** Submit normalises only `website` and `google_maps_url`. */
  lemma NormalizedPassesThrough(form: CompanyInfo, f: Field)
    requires f != Website && f != GoogleMapsUrl
    ensures Get(Normalized(form), f) == Get(form, f)
  {
  }

  /** Normalising twice is normalising once, so resubmitting a saved form sends the same values. */
  lemma NormalizedIdempotent(form: CompanyInfo)
    ensures Normalized(Normalized(form)) == Normalized(form)
  {
    NormalizeUrlIdempotent(form.website);
    NormalizeUrlIdempotent(form.googleMapsUrl);
  }

  /** The validation step of `handleSubmit`: the values sent to the table, which the form then
      shows, or the first issue. */
  function SubmitCompanyInfo(form: CompanyInfo, isEmail: string -> bool): (r: Result<CompanyInfo, Issue>)
    ensures r.Ok? ==> r.value == Normalized(form) && WithinSchema(r.value, isEmail)
    ensures r.Ok? <==> WithinSchema(Normalized(form), isEmail)
  {
    ValidateAcceptsIff(Normalized(form), isEmail);
    Validate(Normalized(form), isEmail)
  }

  /** Bounds are checked after normalisation: a bare website of more than 92 code units passes
      its own bound as typed yet fails once `https://` is added. */
  lemma PrefixCountsTowardWebsiteLimit(form: CompanyInfo, isEmail: string -> bool)
    requires Trim(form.website) != [] && !HasHttpScheme(Trim(form.website))
    requires Utf16Length(Trim(form.website)) > 92
    ensures SubmitCompanyInfo(form, isEmail).Err?
  {
    var n := Normalized(form);
    HttpsPrefixLength(Trim(form.website));
    assert Utf16Length(n.website) > 100;
    assert !WithinSchema(n, isEmail);
  }

  /** `https://` adds eight code units. */
  lemma HttpsPrefixLength(t: string)
    ensures Utf16Length("https://" + t) == Utf16Length(t) + 8
  {
    Utf16LengthAppend("https://", t);
    Utf16LengthAscii("https://");
  }
}
