/**
 * The Configzio client of ts-sdk/src/index.ts: the application-id check done when a client is
 * made, the request each of the four operations sends, and how the status of the reply decides
 * between a result and an error. The network exchange itself is a parameter (`Transport`).
 */
module ConfigzioSdk {
  import opened Wrappers
  import opened Text
  import RegExp
  import Url

  const MissingApplication := "must provide application"
  const InvalidApplication := "Application must a string containing only letters and numbers"
  const HttpCodePrefix := "Configzio return Http code: "
  const ApiDomain := ".api.configz.io"
  const ApiBase := "/api/v2/"

  /** The errors the client raises. The source throws a plain `Error` for the first two; the kind is the model's label. */
  datatype ClientError =
    | ConfigurationError(message: string)
    | HttpError(status: nat, message: string)
    | ParseError(message: string)

  // ---------------------------------------------------------------------------------------------
  // Application ids

  predicate IsApplicationChar(c: char) {
    'a' <= c <= 'z' || 'A' <= c <= 'Z' || '0' <= c <= '9' || c == '-'
  }

  predicate IsApplicationId(s: string) {
    |s| >= 1 && forall i :: 0 <= i < |s| ==> IsApplicationChar(s[i])
  }

  type ApplicationId = s: string | IsApplicationId(s) witness "a"

  /** The pattern `/^[a-z0-9\-]+$/i` the constructor tests the application id against. */
  const ApplicationPattern := RegExp.AnchoredPlus(
    [RegExp.ClassRange('a', 'z'), RegExp.ClassRange('0', '9'), RegExp.ClassRange('-', '-')], true)

  /** Under the `i` flag the class `[a-z0-9\-]` matches exactly the letters of either case, the digits and `-`. */
  lemma ApplicationClassMeaning(c: char)
    ensures RegExp.ClassMatches(ApplicationPattern.ranges, true, c) <==> IsApplicationChar(c)
  {
    var ranges := ApplicationPattern.ranges;
    if IsApplicationChar(c) {
      if 'A' <= c <= 'Z' {
        var d := (c as int + 32) as char;
        assert ranges[0].lo <= d <= ranges[0].hi;
        assert RegExp.Canonicalize(d) == c == RegExp.Canonicalize(c);
        assert RegExp.RangeMatches(ranges[0], true, c);
      } else if 'a' <= c <= 'z' {
        assert ranges[0].lo <= c <= ranges[0].hi && 'A' <= RegExp.Canonicalize(c) <= 'Z';
        assert RegExp.RangeMatches(ranges[0], true, c);
      } else if '0' <= c <= '9' {
        assert RegExp.Canonicalize(c) == c;
        assert RegExp.RangeMatches(ranges[1], true, c);
      } else {
        assert RegExp.Canonicalize(c) == c;
        assert RegExp.RangeMatches(ranges[2], true, c);
      }
    } else {
      forall k, d: char | 0 <= k < 3 && ranges[k].lo <= d <= ranges[k].hi
        ensures RegExp.Canonicalize(d) != RegExp.Canonicalize(c)
      {
      }
    }
  }

  /** The regular expression accepts exactly the non-empty strings of application characters. */
  lemma {:induction false} ApplicationPatternMeaning(s: string)
    ensures RegExp.Matches(ApplicationPattern, s) <==> IsApplicationId(s)
    decreases |s|
  {
    if |s| >= 1 {
      ApplicationClassMeaning(s[0]);
      if |s| > 1 {
        ApplicationPatternMeaning(s[1..]);
        assert forall i :: 1 <= i < |s| ==> s[i] == s[1..][i - 1];
      }
    }
  }

  // ---------------------------------------------------------------------------------------------
  // The client

  /** The token callback, once awaited: it yields a token or nothing. */
  type TokenProvider = () -> Option<string>

  /** What a successful construction holds: the checked application id and the token callback (`_getToken`). */
  datatype Client = Client(application: ApplicationId, getToken: TokenProvider)

  /** `getToken || (() => null)`: a missing callback is replaced by one that yields nothing. */
  function ResolveTokenProvider(getToken: Option<TokenProvider>): (p: TokenProvider)
    ensures getToken.None? ==> p() == None
    ensures getToken.Some? ==> p() == getToken.value()
  {
    if getToken.Some? then getToken.value else () => None
  }

  /** Construction: an empty id, then an id the pattern rejects, fail; otherwise the client is made. */
  function Configzio(application: string, getToken: Option<TokenProvider>): (r: Result<Client, ClientError>)
    ensures r.Failure? && r.error == ConfigurationError(MissingApplication) <==> application == ""
    ensures r.Failure? && r.error == ConfigurationError(InvalidApplication)
      <==> application != "" && exists i :: 0 <= i < |application| && !IsApplicationChar(application[i])
    ensures r.Success? <==> RegExp.Matches(ApplicationPattern, application)
    ensures r.Success? ==> r.value.application == application && r.value.getToken() == ResolveTokenProvider(getToken)()
  {
    ApplicationPatternMeaning(application);
    if application == "" then Failure(ConfigurationError(MissingApplication))
    else if !IsApplicationId(application) then Failure(ConfigurationError(InvalidApplication))
    else Success(Client(application, ResolveTokenProvider(getToken)))
  }

  // ---------------------------------------------------------------------------------------------
  // Requests

  /** A JSON value; the client passes these through without looking inside. */
  datatype Json =
    | JNull
    | JBool(b: bool)
    | JNumber(n: real)
    | JString(s: string)
    | JArray(items: seq<Json>)
    | JObject(members: map<string, Json>)

  type Context = map<string, Json>

  /** An identity reference: an `id` together with further properties. */
  datatype Identity = Identity(id: string, properties: Context)

  /** The `identities` argument of getValue: one identity or several. */
  datatype Identities = One(identity: Identity) | Many(identities: seq<Identity>)

  /** The four operations of the client with their arguments. */
  datatype Operation =
    | GetValue(fullKeyPath: string, identities: Option<Identities>)
    | GetContext(identityType: string, identityId: string)
    | SetContext(identityType: string, identityId: string, context: Context)
    | DeleteContext(identityType: string, identityId: string, property: string)

  datatype HttpMethod = Get | Post | Delete

  datatype Header = Header(name: string, value: string)

  /** What is handed to `fetch`: the method, the URL, the headers in order and the context to serialize, if any. */
  datatype Request = Request(httpMethod: HttpMethod, url: string, headers: seq<Header>, body: Option<Context>)

  /** The value of the first header called `name`. */
  function Lookup(headers: seq<Header>, name: string): Option<string> {
    if headers == [] then None
    else if headers[0].name == name then Some(headers[0].value)
    else Lookup(headers[1..], name)
  }

  predicate NamesDistinct(headers: seq<Header>) {
    forall i, j :: 0 <= i < j < |headers| ==> headers[i].name != headers[j].name
  }

  function ContextPath(identityType: string, identityId: string): string {
    "context/" + identityType + "/" + identityId
  }

  /** A context operation whose identity type, identity id and (for deleteContext) property contain no `/`. */
  predicate PlainContextSegments(op: Operation) {
    !op.GetValue? && '/' !in op.identityType && '/' !in op.identityId && (op.DeleteContext? ==> '/' !in op.property)
  }

  /** The segments a context operation names: `context`, the identity type, the identity id and, for deleteContext, the property. */
  function ContextSegments(op: Operation): seq<string>
    requires !op.GetValue?
  {
    ["context", op.identityType, op.identityId] + (if op.DeleteContext? then [op.property] else [])
  }

  /** Joining a context operation's segments with `/` gives the text the source writes for its resource. */
  lemma ContextSegmentsSplit(op: Operation)
    requires !op.GetValue?
    ensures Join(ContextSegments(op), '/')
      == ContextPath(op.identityType, op.identityId) + (if op.DeleteContext? then "/" + op.property else "")
    ensures PlainContextSegments(op) ==>
      Split(ContextPath(op.identityType, op.identityId) + (if op.DeleteContext? then "/" + op.property else ""), '/')
      == ContextSegments(op)
  {
    var parts := ContextSegments(op);
    assert Join(parts[2..], '/') == op.identityId + (if op.DeleteContext? then "/" + op.property else "");
    assert Join(parts, '/') == ContextPath(op.identityType, op.identityId) + (if op.DeleteContext? then "/" + op.property else "");
    if PlainContextSegments(op) {
      SplitJoin(parts, '/');
    }
  }

  /**
   * The resource each operation addresses. The arguments are spliced in as they are, without encoding:
   * the getValue key path keeps its own `/`-separated segments, and `/`-free context segments come back
   * unchanged when the resource is split at `/`.
   */
  function ResourcePath(op: Operation): (r: string)
    ensures op.GetValue? ==> Split(r, '/') == ["values"] + Split(op.fullKeyPath, '/')
    ensures !op.GetValue? ==> r == Join(ContextSegments(op), '/')
    ensures PlainContextSegments(op) ==> Split(r, '/') == ContextSegments(op)
  {
    match op
    case GetValue(fullKeyPath, _) =>
      assert "values/" + fullKeyPath == "values" + ['/'] + fullKeyPath;
      SplitFirst("values", fullKeyPath, '/');
      "values/" + fullKeyPath
    case GetContext(identityType, identityId) =>
      ContextSegmentsSplit(op);
      assert ContextPath(identityType, identityId) + "" == ContextPath(identityType, identityId);
      ContextPath(identityType, identityId)
    case SetContext(identityType, identityId, _) =>
      ContextSegmentsSplit(op);
      assert ContextPath(identityType, identityId) + "" == ContextPath(identityType, identityId);
      ContextPath(identityType, identityId)
    case DeleteContext(identityType, identityId, property) =>
      ContextSegmentsSplit(op);
      assert ContextPath(identityType, identityId) + "/" + property == ContextPath(identityType, identityId) + ("/" + property);
      ContextPath(identityType, identityId) + "/" + property
  }

  /** An application character is none of the characters that delimit the parts of a URL's authority. */
  lemma HostCharsPlain(application: string)
    requires IsApplicationId(application)
    ensures var host := application + ApiDomain;
      forall j :: 0 <= j < |host| ==> host[j] !in {'/', '?', '#', '@', ':'}
  {
    var host := application + ApiDomain;
    forall j | 0 <= j < |host| ensures host[j] !in {'/', '?', '#', '@', ':'} {
      if j < |application| {
        assert IsApplicationChar(application[j]);
      } else {
        assert host[j] == ApiDomain[j - |application|];
      }
    }
  }

  /**
   * `getFullUrl`: for a checked application id the URL text names the host `application + ".api.configz.io"`
   * and continues with `/api/v2/` followed by the resource, whatever the resource holds.
   */
  function FullUrl(application: string, resource: string): (u: string)
    ensures IsApplicationId(application) ==> Url.Host(u) == Some(application + ApiDomain)
    ensures IsApplicationId(application) ==> Url.Tail(u) == Some(ApiBase + resource)
  {
    var u := "https://" + application + ApiDomain + ApiBase + resource;
    assert IsApplicationId(application) ==> Url.Host(u) == Some(application + ApiDomain) && Url.Tail(u) == Some(ApiBase + resource)
    by {
      if IsApplicationId(application) {
        HostCharsPlain(application);
        assert u == Url.Https + (application + ApiDomain) + (ApiBase + resource);
        Url.PlainUrl(application + ApiDomain, ApiBase + resource);
      }
    }
    u
  }

  /** JavaScript truthiness of the awaited token: null and the empty string are false. */
  predicate IsTruthy(token: Option<string>) {
    token.Some? && token.value != ""
  }

  /** `getAuthorizationHeader`: at most one header, Authorization, present exactly for a truthy token. */
  function AuthorizationHeader(token: Option<string>): (h: seq<Header>)
    ensures Lookup(h, "Authorization") == (if IsTruthy(token) then Some("Bearer " + token.value) else None)
    ensures forall k :: 0 <= k < |h| ==> h[k].name == "Authorization"
    ensures |h| <= 1
  {
    if IsTruthy(token) then [Header("Authorization", "Bearer " + token.value)] else []
  }

  function MethodOf(op: Operation): HttpMethod {
    match op
    case GetValue(_, _) => Get
    case GetContext(_, _) => Get
    case SetContext(_, _, _) => Post
    case DeleteContext(_, _, _) => Delete
  }

  /** Identity types, ids and properties free of `/` are told apart by the resource they address. */
  lemma ContextPathInjective(op1: Operation, op2: Operation)
    requires PlainContextSegments(op1) && PlainContextSegments(op2)
    requires ResourcePath(op1) == ResourcePath(op2)
    ensures op1.identityType == op2.identityType && op1.identityId == op2.identityId
    ensures op1.DeleteContext? <==> op2.DeleteContext?
    ensures op1.DeleteContext? ==> op1.property == op2.property
  {
    var s1 := Split(ResourcePath(op1), '/');
    assert s1 == ContextSegments(op1);
    assert |s1| == if op1.DeleteContext? then 4 else 3;
    assert s1[1] == op1.identityType && s1[2] == op1.identityId;
    assert op1.DeleteContext? ==> s1[3] == op1.property;
  }

  /** Segments are not encoded, so a `/` inside one makes two different context references address the same resource. */
  lemma UnencodedSegmentsCollide()
    ensures GetContext("a/b", "c") != GetContext("a", "b/c")
    ensures ResourcePath(GetContext("a/b", "c")) == ResourcePath(GetContext("a", "b/c"))
  {
    assert "a/b" != "a" by { assert |"a/b"| != |"a"|; }
  }

  /** getContext and setContext address the same resource; deleteContext addresses one of its properties. */
  lemma ContextOperationsShareResource(identityType: string, identityId: string, context: Context, property: string)
    ensures ResourcePath(GetContext(identityType, identityId)) == ResourcePath(SetContext(identityType, identityId, context))
    ensures ResourcePath(DeleteContext(identityType, identityId, property))
      == ResourcePath(GetContext(identityType, identityId)) + "/" + property
  {
  }

  /** The request an operation sends, given the application id and the token the callback yielded. */
  function BuildRequest(application: string, token: Option<string>, op: Operation): (r: Request)
    ensures r.url == "https://" + application + ".api.configz.io/api/v2/" + ResourcePath(op)
    ensures r.httpMethod == Get <==> op.GetValue? || op.GetContext?
    ensures r.httpMethod == Post <==> op.SetContext?
    ensures r.httpMethod == Delete <==> op.DeleteContext?
    ensures Lookup(r.headers, "Authorization") == (if IsTruthy(token) then Some("Bearer " + token.value) else None)
    ensures Lookup(r.headers, "Content-Type") == (if op.SetContext? then Some("application/json") else None)
    ensures forall h :: h in r.headers ==> h.name == "Authorization" || h.name == "Content-Type"
    ensures NamesDistinct(r.headers)
    ensures r.body == (if op.SetContext? then Some(op.context) else None)
    ensures op.SetContext? ==> r.headers[0] == Header("Content-Type", "application/json")
  {
    assert "Authorization" != "Content-Type" by { assert "Authorization"[0] != "Content-Type"[0]; }
    var url := FullUrl(application, ResourcePath(op));
    match op
    case SetContext(_, _, context) =>
      Request(Post, url, [Header("Content-Type", "application/json")] + AuthorizationHeader(token), Some(context))
    case _ =>
      Request(MethodOf(op), url, AuthorizationHeader(token), None)
  }

  /** The request a client sends: its own application id and the token its callback yields now. */
  function SentRequest(c: Client, op: Operation): (r: Request)
    ensures Url.Host(r.url) == Some(c.application + ApiDomain)
    ensures Url.Tail(r.url) == Some(ApiBase + ResourcePath(op))
    ensures Lookup(r.headers, "Authorization") == (if IsTruthy(c.getToken()) then Some("Bearer " + c.getToken().value) else None)
  {
    BuildRequest(c.application, c.getToken(), op)
  }

  // ---------------------------------------------------------------------------------------------
  // Responses

  /** The reply of the server: its status and what `response.json()` makes of the body. */
  datatype Response = Response(status: nat, json: Result<Json, string>)

  type Transport = Request -> Response

  /** The status code read back out of an error message, when the message has the shape the client writes. */
  function StatusInMessage(message: string): Option<nat> {
    var n := |HttpCodePrefix|;
    if |message| > n && message[..n] == HttpCodePrefix && AllDigits(message[n..])
    then Some(DigitsValue(message[n..]))
    else None
  }

  /** `if (response.status > 299) throw ...`: any status above 299 is an error carrying that status. */
  function CheckStatus(status: nat): (r: Result<(), ClientError>)
    ensures r.Success? <==> status <= 299
    ensures r.Failure? ==> r.error.HttpError? && r.error.status == status && StatusInMessage(r.error.message) == Some(status)
    ensures r.Failure? ==> r.error.message == HttpCodePrefix + Decimal(status)
  {
    if status > 299 then
      var message := HttpCodePrefix + Decimal(status);
      DecimalRoundTrip(status);
      assert message[..|HttpCodePrefix|] == HttpCodePrefix;
      assert message[|HttpCodePrefix|..] == Decimal(status);
      Failure(HttpError(status, message))
    else
      Success(())
  }

  /** Whether the operation returns the decoded body (the GETs) or nothing (POST and DELETE). */
  predicate ReturnsBody(op: Operation) {
    op.GetValue? || op.GetContext?
  }

  /** What an operation resolves to once the reply is in: the status is checked first, then a GET decodes the body. */
  function Complete(op: Operation, response: Response): (r: Result<Option<Json>, ClientError>)
    ensures response.status > 299 ==> r.Failure? && r.error == CheckStatus(response.status).error
    ensures r.Failure? && r.error.HttpError? <==> response.status > 299
    ensures ReturnsBody(op) ==> (r.Success? <==> response.status <= 299 && response.json.Success?)
    ensures ReturnsBody(op) && r.Success? ==> r.value == Some(response.json.value)
    ensures ReturnsBody(op) && response.status <= 299 && response.json.Failure? ==> r == Failure(ParseError(response.json.error))
    ensures !ReturnsBody(op) ==> (r.Success? <==> response.status <= 299) && (r.Success? ==> r.value == None)
  {
    match CheckStatus(response.status)
    case Failure(e) => Failure(e)
    case Success(_) =>
      if !ReturnsBody(op) then Success(None)
      else match response.json
        case Success(v) => Success(Some(v))
        case Failure(e) => Failure(ParseError(e))
  }

  /** The transport's reply to the request a client sends for an operation. */
  function Reply(c: Client, op: Operation, transport: Transport): Response {
    transport(SentRequest(c, op))
  }

  /** One call of an operation on a client: build the request, let the transport answer it, interpret the answer. */
  function Run(c: Client, op: Operation, transport: Transport): (r: Result<Option<Json>, ClientError>)
    ensures r.Failure? && r.error.HttpError? <==> Reply(c, op, transport).status > 299
    ensures Reply(c, op, transport).status > 299 ==> r == Failure(CheckStatus(Reply(c, op, transport).status).error)
    ensures r.Success? && r.value.Some? <==>
      ReturnsBody(op) && Reply(c, op, transport).status <= 299 && Reply(c, op, transport).json.Success?
    ensures r.Success? && r.value.Some? ==> r.value.value == Reply(c, op, transport).json.value
    ensures !ReturnsBody(op) && Reply(c, op, transport).status <= 299 ==> r == Success(None)
    ensures ReturnsBody(op) && Reply(c, op, transport).status <= 299 && Reply(c, op, transport).json.Failure? ==>
      r == Failure(ParseError(Reply(c, op, transport).json.error))
  {
    Complete(op, Reply(c, op, transport))
  }

  /** The `identities` argument of getValue changes nothing: neither the request nor the outcome. */
  lemma IdentitiesIgnored(c: Client, fullKeyPath: string, identities: Identities, transport: Transport)
    ensures SentRequest(c, GetValue(fullKeyPath, Some(identities))) == SentRequest(c, GetValue(fullKeyPath, None))
    ensures Run(c, GetValue(fullKeyPath, Some(identities)), transport) == Run(c, GetValue(fullKeyPath, None), transport)
  {
  }

  /** A client made without a token callback never sends an Authorization header. */
  lemma NoCallbackNoAuthorization(application: string, op: Operation)
    requires Configzio(application, None).Success?
    ensures Lookup(SentRequest(Configzio(application, None).value, op).headers, "Authorization") == None
  {
  }

  /** A status above 299 fails every operation with the same HTTP error, whatever the body holds. */
  lemma StatusBeforeBody(op: Operation, status: nat, json1: Result<Json, string>, json2: Result<Json, string>)
    requires status > 299
    ensures Complete(op, Response(status, json1)) == Complete(op, Response(status, json2))
    ensures Complete(op, Response(status, json1)).Failure? && Complete(op, Response(status, json1)).error.HttpError?
  {
  }
}
