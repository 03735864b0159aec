/**
  The Azure Instance Metadata Service (IMDS) token fetch of the Azure auth plugin:
  one GET to a fixed local endpoint, then extraction of `access_token` from the
  JSON body. The network exchange and the JSON scanner are foreign code; their
  outcomes are inputs here.
 */
module Imds {
  import opened Wrappers

  /** The fixed token endpoint: API version 2018-02-01, audience Azure Key Vault. */
  const TokenUrl := "http://169.254.169.254/metadata/identity/oauth2/token?api-version=2018-02-01&resource=https://vault.azure.net"

  /** The header IMDS requires on every request. */
  const MetadataHeaderName := "Metadata"
  const MetadataHeaderValue := "true"

  /** The field of the token response that carries the bearer token. */
  const AccessTokenKey := "access_token"

  /**
    A scanned JSON value. Numbers keep their literal text, and the scanner says whether
    the literal's magnitude overflows a 64-bit float, the type Go stores it as (a literal
    that underflows, such as `1e-400`, decodes to 0 and does not overflow). An object keeps
    its members in document order, repeated names included.
   */
  datatype Json =
    | Null
    | Bool(b: bool)
    | Number(literal: string, overflowsFloat64: bool)
    | String(s: string)
    | Array(elems: seq<Json>)
    | Object(members: seq<Member>)

  /** One `"name": value` member of a JSON object. */
  datatype Member = Member(name: string, value: Json)

  /** What the JSON scanner makes of a response body: a value, or a syntax error's text. */
  type Document = Result<Json, string>

  /** The response to the IMDS GET: its status, and the outcome of reading its body in full. */
  datatype HttpResponse = HttpResponse(status: int, body: Result<Document, string>)

  /** The failures of the token fetch, one per step that can fail. */
  datatype FetchError =
    | TransportFailed(detail: string)   // the HTTP client could not complete the GET
    | BodyReadFailed(detail: string)    // the response body could not be read
    | JsonSyntax(detail: string)        // the body is not JSON
    | JsonNotObject                     // JSON, but not something a map can be decoded from
    | NumberOutOfRange                  // a number in the object overflows a 64-bit float
    | MissingAccessToken                // "missing 'access_token' in the response"

  /** The Go error text of each failure. */
  function Message(e: FetchError): string
  {
    match e
    case TransportFailed(d) => d
    case BodyReadFailed(d) => d
    case JsonSyntax(d) => d
    case JsonNotObject => "json: cannot unmarshal into Go value of type map[string]interface {}"
    case NumberOutOfRange => "json: cannot unmarshal number into Go value of type float64"
    case MissingAccessToken => "missing 'access_token' in the response"
  }

  /** No number in the value, at any depth and in any repeat of a member name, overflows a 64-bit float. */
  predicate NoNumberOverflows(j: Json)
  {
    match j
    case Number(_, overflows) => !overflows
    case Array(elems) => forall i :: 0 <= i < |elems| ==> NoNumberOverflows(elems[i])
    case Object(members) => forall i :: 0 <= i < |members| ==> NoNumberOverflows(members[i].value)
    case _ => true
  }

  /**
    The map an object's members decode into: members are stored in document order, so
    of repeated names the last one wins.
   */
  function Fields(members: seq<Member>): (m: map<string, Json>)
    ensures forall i :: 0 <= i < |members| ==> members[i].name in m
    ensures |members| > 0 ==> m[members[|members| - 1].name] == members[|members| - 1].value
  {
    if members == [] then map[]
    else
      var last := members[|members| - 1];
      Fields(members[..|members| - 1])[last.name := last.value]
  }

  /** Every name in the decoded map is the name of some member. */
  lemma {:induction false} FieldsHaveMemberNames(members: seq<Member>, k: string)
    requires k in Fields(members)
    ensures exists i :: 0 <= i < |members| && members[i].name == k
  {
    var last := members[|members| - 1];
    if k != last.name {
      var init := members[..|members| - 1];
      FieldsHaveMemberNames(init, k);
      var i :| 0 <= i < |init| && init[i].name == k;
      assert members[i] == init[i];
    }
  }

  /** The value under a name is that of its last member. */
  lemma {:induction false} LastMemberWins(members: seq<Member>, i: nat)
    requires i < |members|
    requires forall j :: i < j < |members| ==> members[j].name != members[i].name
    ensures members[i].name in Fields(members) && Fields(members)[members[i].name] == members[i].value
  {
    if i < |members| - 1 {
      var init := members[..|members| - 1];
      assert init[i] == members[i];
      LastMemberWins(init, i);
    }
  }

  /** The document decodes into a Go map without error: `null`, or an object none of whose numbers overflows. */
  predicate Decodes(doc: Document)
  {
    doc.Ok? && (doc.value.Null? || (doc.value.Object? && NoNumberOverflows(doc.value)))
  }

  /**
    Decoding a document into a `map[string]interface{}`: an object gives its fields,
    unless one of its numbers overflows a 64-bit float, which is a type error (Go decodes
    every member and keeps the first such error); `null` leaves the map nil (which reads
    as empty) without an error; anything else is a type error.
   */
  function UnmarshalObject(doc: Document): (r: Result<map<string, Json>, FetchError>)
    ensures r.Ok? <==> Decodes(doc)
    ensures doc.Err? ==> r == Err(JsonSyntax(doc.error))
    ensures doc.Ok? && doc.value.Object? && !NoNumberOverflows(doc.value) ==> r == Err(NumberOutOfRange)
    ensures doc.Ok? && !doc.value.Object? && !doc.value.Null? ==> r == Err(JsonNotObject)
    ensures r.Ok? && doc.value.Object? ==> r.value == Fields(doc.value.members)
    ensures r.Ok? && doc.value.Null? ==> r.value == map[]
  {
    match doc
    case Err(e) => Err(JsonSyntax(e))
    case Ok(Object(ms)) => if NoNumberOverflows(Object(ms)) then Ok(Fields(ms)) else Err(NumberOutOfRange)
    case Ok(Null) => Ok(map[])
    case Ok(_) => Err(JsonNotObject)
  }

  /** The document is a JSON object whose `access_token` member (the last, if repeated) is a string. */
  predicate HasStringAccessToken(doc: Document)
  {
    doc.Ok? && doc.value.Object? && AccessTokenKey in Fields(doc.value.members)
    && Fields(doc.value.members)[AccessTokenKey].String?
  }

  /**
    parseAzureTokenResponse: a decode error is returned as it is; otherwise the token is
    the string under `access_token`. A missing or non-string member is the "missing
    'access_token'" error; an empty string is accepted.
   */
  function ParseAzureTokenResponse(doc: Document): (r: Result<string, FetchError>)
    ensures r.Ok? <==> Decodes(doc) && HasStringAccessToken(doc)
    ensures r.Ok? ==> Fields(doc.value.members)[AccessTokenKey] == String(r.value)
    ensures !Decodes(doc) ==> r == Err(UnmarshalObject(doc).error)
    ensures (Decodes(doc) && !HasStringAccessToken(doc)) ==> r == Err(MissingAccessToken)
  {
    match UnmarshalObject(doc)
    case Err(e) => Err(e)
    case Ok(response) =>
      if AccessTokenKey in response && response[AccessTokenKey].String?
      then Ok(response[AccessTokenKey].s)
      else Err(MissingAccessToken)
  }

  /**
    getAzureManagedIdentityToken, given the outcome of the single GET: a transport
    failure or a body read failure is returned as it is, otherwise the body is parsed.
    The HTTP status is never looked at.
   */
  function GetAzureManagedIdentityToken(exchange: Result<HttpResponse, string>): (r: Result<string, FetchError>)
    ensures exchange.Err? ==> r == Err(TransportFailed(exchange.error))
    ensures exchange.Ok? && exchange.value.body.Err? ==> r == Err(BodyReadFailed(exchange.value.body.error))
    ensures exchange.Ok? && exchange.value.body.Ok? ==> r == ParseAzureTokenResponse(exchange.value.body.value)
    ensures r.Ok? <==> exchange.Ok? && exchange.value.body.Ok?
                       && Decodes(exchange.value.body.value) && HasStringAccessToken(exchange.value.body.value)
  {
    match exchange
    case Err(e) => Err(TransportFailed(e))
    case Ok(resp) =>
      match resp.body
      case Err(e) => Err(BodyReadFailed(e))
      case Ok(doc) => ParseAzureTokenResponse(doc)
  }

  /**
    Among objects that decode, members other than `access_token` never change the
    outcome of the parse.
   */
  lemma OnlyAccessTokenMatters(ms1: seq<Member>, ms2: seq<Member>)
    requires NoNumberOverflows(Object(ms1)) && NoNumberOverflows(Object(ms2))
    requires AccessTokenKey in Fields(ms1) <==> AccessTokenKey in Fields(ms2)
    requires AccessTokenKey in Fields(ms1) ==> Fields(ms1)[AccessTokenKey] == Fields(ms2)[AccessTokenKey]
    ensures ParseAzureTokenResponse(Ok(Object(ms1))) == ParseAzureTokenResponse(Ok(Object(ms2)))
  {
  }

  /** In an object that decodes, an empty `access_token` string is a successful parse giving the empty token. */
  lemma EmptyAccessTokenAccepted(ms: seq<Member>)
    requires NoNumberOverflows(Object(ms))
    requires AccessTokenKey in Fields(ms) && Fields(ms)[AccessTokenKey] == String("")
    ensures ParseAzureTokenResponse(Ok(Object(ms))) == Ok("")
  {
  }

  /** The documented response shape yields its token. */
  lemma ExampleResponseParses()
    ensures ParseAzureTokenResponse(Ok(Object([
              Member("access_token", String("abc123")),
              Member("expires_in", Number("3600", false)),
              Member("token_type", String("Bearer"))]))) == Ok("abc123")
  {
  }

  /** A response without `access_token` is the missing-token error. */
  lemma ResponseWithoutTokenFails()
    ensures ParseAzureTokenResponse(Ok(Object([Member("expires_in", Number("3600", false))])))
            == Err(MissingAccessToken)
  {
  }

  /** A number that overflows a 64-bit float fails the decode, although `access_token` is a string. */
  lemma OutOfRangeNumberFails()
    ensures ParseAzureTokenResponse(Ok(Object([
              Member("access_token", String("abc")),
              Member("expires_in", Number("1e400", true))]))) == Err(NumberOutOfRange)
  {
    var ms := [Member("access_token", String("abc")), Member("expires_in", Number("1e400", true))];
    assert !NoNumberOverflows(ms[1].value);
  }

  /** A number that underflows a 64-bit float decodes (to 0) without error. */
  lemma UnderflowingNumberDecodes()
    ensures ParseAzureTokenResponse(Ok(Object([
              Member("access_token", String("abc")),
              Member("expires_in", Number("1e-400", false))]))) == Ok("abc")
  {
  }

  /**
    An overflowing number in a member whose name is repeated later still fails the decode,
    although the later member replaces it in the map: `{"x":1e400,"x":1,"access_token":"a"}`.
   */
  lemma OverflowInRepeatedMemberFails()
    ensures ParseAzureTokenResponse(Ok(Object([
              Member("x", Number("1e400", true)),
              Member("x", Number("1", false)),
              Member("access_token", String("a"))]))) == Err(NumberOutOfRange)
  {
    var ms := [Member("x", Number("1e400", true)), Member("x", Number("1", false)), Member("access_token", String("a"))];
    assert !NoNumberOverflows(ms[0].value);
  }

  /** Of a repeated `access_token`, the last member is the token. */
  lemma RepeatedAccessTokenLastWins()
    ensures ParseAzureTokenResponse(Ok(Object([
              Member("access_token", String("first")),
              Member("access_token", String("second"))]))) == Ok("second")
  {
  }

  /** An overflowing number nested inside an array member of the object fails the decode too. */
  lemma NestedOutOfRangeNumberFails(ms: seq<Member>, k: nat, elems: seq<Json>, i: nat)
    requires k < |ms| && ms[k].value == Array(elems)
    requires i < |elems| && elems[i].Number? && elems[i].overflowsFloat64
    ensures ParseAzureTokenResponse(Ok(Object(ms))) == Err(NumberOutOfRange)
  {
    assert !NoNumberOverflows(elems[i]);
    assert !NoNumberOverflows(ms[k].value);
  }

  /** The status does not matter: an error status with a token body still yields the token. */
  lemma StatusIsIgnored(resp: HttpResponse, status: int)
    ensures GetAzureManagedIdentityToken(Ok(resp)) == GetAzureManagedIdentityToken(Ok(resp.(status := status)))
  {
  }

  /** An error status with a token-bearing body is still a successful fetch. */
  lemma ErrorStatusWithTokenSucceeds()
    ensures GetAzureManagedIdentityToken(
              Ok(HttpResponse(500, Ok(Ok(Object([Member(AccessTokenKey, String("t"))])))))) == Ok("t")
  {
    var ms := [Member(AccessTokenKey, String("t"))];
    assert Fields(ms) == map[AccessTokenKey := String("t")];
    assert NoNumberOverflows(Object(ms));
  }

}
