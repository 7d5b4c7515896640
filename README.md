# Configzio client: request building and response classification

A Dafny model of the Configzio TypeScript client (`ts-sdk/src/index.ts`). The client talks to a
remote configuration service. When it is made, it checks the application id. Each of its four
operations (getValue, getContext, setContext, deleteContext) then builds one HTTPS request and
turns the reply's status into a result or an error.

The model has two steps for each operation, both pure functions:

1. `BuildRequest(application, token, op)` gives the request: method, URL, headers in order, and
   the context to serialize (setContext only). `SentRequest(client, op)` does the same with the
   client's own application id and the token its callback yields.
2. `Complete(op, response)` classifies the reply. A status above 299 is an `HttpError` carrying
   the status. Otherwise a GET returns the decoded body and POST/DELETE return nothing.
   `Run(client, op, transport)` joins the two steps. The network is the `transport` parameter.

Modules:
- `Wrappers`: `Option` and `Result`.
- `Text`: decimal rendering of a status code and its read-back; splitting text at `/`, with its inverse `Join`.
- `Url`: a simplified reading of section 3.2 of RFC 3986: an `https` URL's authority, host and tail, without IPv6 literals or percent-encoding.
- `RegExp`: what `^[...]+$`, with or without the `i` flag, matches under ECMAScript's rules (ECMA-262, section 22.2.2). It is a separate reference definition for the constructor's check.
- `ConfigzioSdk`: the client itself.

Two details follow the code exactly:
- The error messages are the code's exact strings, typo included ("Application must a string containing only letters and numbers").
- The code throws a plain `Error` for both constructor failures and for a bad status. The error kinds `ConfigurationError` and `HttpError` are labels the model adds; each one carries the code's message.

## Model

| member | source | states |
|---|---|---|
| `ConfigzioSdk.Configzio` | ts-sdk/src/index.ts:13-19 | An empty id fails with "must provide application". A non-empty id fails with the "only letters and numbers" error exactly when one of its characters is not in `[A-Za-z0-9-]`. Construction succeeds exactly when the id matches `/^[a-z0-9\-]+$/i`. The client then keeps the id unchanged, and its token callback yields what the given callback yields, or nothing when no callback was given. |
| `ConfigzioSdk.ApplicationClassMeaning` | ts-sdk/src/index.ts:17 | Under ECMAScript case-insensitive matching, the class `[a-z0-9\-]` matches a character exactly when it is an ASCII letter of either case, a digit or `-`. |
| `ConfigzioSdk.ApplicationPatternMeaning` | ts-sdk/src/index.ts:17 | The anchored pattern `^[a-z0-9\-]+$` with the `i` flag matches exactly the non-empty strings made only of application characters. |
| `ConfigzioSdk.ResolveTokenProvider` | ts-sdk/src/index.ts:22 | A missing `getToken` is replaced by a callback that yields nothing. A given callback is used as it is. |
| `ConfigzioSdk.FullUrl` | ts-sdk/src/index.ts:21 | `getFullUrl`: for a checked application id, the URL text names the host `application + ".api.configz.io"` and continues with exactly `"/api/v2/" + resource`, whatever the resource holds. |
| `ConfigzioSdk.BuildRequest` | ts-sdk/src/index.ts:21-88 | The URL is the template filled with the operation's resource. The methods are GET for getValue and getContext, POST for setContext and DELETE for deleteContext. The Authorization header is `"Bearer " + token` when the token is non-null and non-empty, and is absent otherwise. Content-Type `application/json` is present only for setContext. No other header is sent and no header name repeats. Only setContext carries a body, which is its context. For setContext, Content-Type comes first, as the object literal lists it. |
| `ConfigzioSdk.SentRequest` | ts-sdk/src/index.ts:21-30 | The URL a client hands to fetch names its own host `application + ".api.configz.io"` and continues with `/api/v2/` followed by the operation's resource. The request carries Authorization exactly when the client's callback yields a truthy token. |
| `ConfigzioSdk.AuthorizationHeader` | ts-sdk/src/index.ts:23 | `getAuthorizationHeader`: at most one header, named Authorization. Its value is `"Bearer " + token` when the token is non-null and non-empty; otherwise no header is produced. |
| `ConfigzioSdk.ResourcePath` | ts-sdk/src/index.ts:26-81 | Every context resource is exactly `context`, the identity type, the identity id and, for deleteContext, the property, joined with `/`, whatever those segments hold. The getValue resource splits at `/` into `values` followed by the key path's own segments, unchanged. When a context operation's segments contain no `/`, its resource splits into `context`, the identity type and the identity id, each unchanged, plus the property for deleteContext. |
| `ConfigzioSdk.ContextPathInjective` | ts-sdk/src/index.ts:45-81 | Context operations whose segments contain no `/` and that address the same resource have the same identity type, identity id and (for deleteContext) property. |
| `ConfigzioSdk.UnencodedSegmentsCollide` | ts-sdk/src/index.ts:45 | Segments are not encoded, so a `/` inside one lets two different identity references address the same resource. |
| `ConfigzioSdk.ContextOperationsShareResource` | ts-sdk/src/index.ts:45-81 | getContext and setContext address the same resource. deleteContext addresses that resource followed by `"/" + property`. |
| `ConfigzioSdk.CheckStatus` | ts-sdk/src/index.ts:35-37 | The check succeeds exactly when the status is at most 299. Otherwise the error carries the status, and its message is exactly `"Configzio return Http code: "` followed by the decimal status. The status can be read back from that message. |
| `ConfigzioSdk.Complete` | ts-sdk/src/index.ts:35-92 | The status is checked before the body. A status above 299 gives the status check's error for every operation. With a status of 299 or less, a GET returns the decoded body, or a parse error when decoding failed. A POST or DELETE then succeeds with no value, whatever the body holds. |
| `ConfigzioSdk.Run` | ts-sdk/src/index.ts:25-93 | One call ends in an HTTP error exactly when the transport answers the sent request with a status above 299. It returns a value exactly when the operation is a GET, the status is at most 299 and the body decodes, and that value is the decoded body. A setContext or deleteContext answered with a status of at most 299 resolves with no value. A GET with such a status whose body does not decode fails with a parse error carrying the decoder's message. A status above 299 gives exactly the status check's error: an HttpError with that status and the message `"Configzio return Http code: "` followed by the decimal status. |
| `ConfigzioSdk.IdentitiesIgnored` | ts-sdk/src/index.ts:25-33 | The `identities` argument of getValue changes neither the request nor the outcome. |
| `ConfigzioSdk.NoCallbackNoAuthorization` | ts-sdk/src/index.ts:22-23 | A client made without a token callback sends no Authorization header on any operation. |
| `ConfigzioSdk.StatusBeforeBody` | ts-sdk/src/index.ts:35-39 | Two replies with the same status above 299 give the same HTTP error for any operation, whatever their bodies hold. |
| `Text.Decimal` | ts-sdk/src/index.ts:36 | The status is rendered as at least one decimal digit, with a leading `0` only for zero. |
| `Text.DecimalRoundTrip` | ts-sdk/src/index.ts:36 | Reading the rendered digits back gives the status unchanged, so the message carries the exact code. |
| `Url.PlainUrl` | ts-sdk/src/index.ts:21 | Take a host without `/ ? # @ :` and a tail that starts with `/`. An `https` URL made of the two is read back as exactly that host and that tail. |

## Left out

- The network call (`fetch` from `cross-fetch`) is the `Transport` parameter, a total function from request to reply. Transport failures (DNS, TLS, connection) are therefore not modelled.
- `async`/`await` and the `Promise` machinery are not modelled, nor is concurrency between calls.
- The token callback is a pure function, so it yields the same token on every call. A token that changes between calls is covered only by `BuildRequest`, which takes the already-awaited token as a parameter.
- `response.json()` is not modelled. The reply carries the decoder's outcome (a value or an error message), and the model only passes it on.
- `JSON.stringify(context)` is not modelled. The request body is the context map itself.
- The generic type `T` of getValue is not modelled. The decoded value is a plain JSON value.
- Header objects built by spread are modelled as a sequence of name/value pairs in the order the object literal lists them.
- Header-name case-insensitivity of the fetch `Headers` class is not modelled.
- fetch's own URL parsing (the WHATWG URL parser) is not modelled. The host and path facts are about the URL text handed to fetch. fetch then normalizes that text: it resolves `.` and `..` segments, treats `\` as `/`, lowercases the host, and starts a query or fragment at `?` or `#`. Because segments are not encoded, a `..` in an argument can therefore reach a path outside `/api/v2/` (getValue with key path `../../admin` requests `/api/admin`).
- `ConfigzioSdk.Configzio`: the type of `application` in the source is `string`, so an absent (`undefined`/`null`) id is not modelled. The empty string is the one falsy string, and it is modelled.
- `RegExp.Canonicalize` covers ASCII only. ECMAScript never maps a character at or above U+0080 onto an ASCII character when the `u` flag is absent, so the characters a class of ASCII ranges matches are the same.
- `Text.Decimal`: the status is a natural number, as fetch's `status` always is, and fetch's statuses are at most 999. Decimal writes plain digits for every natural number. JavaScript writes integers of 1e21 and above in exponent form (`1e+21`). That form, and JavaScript's rendering of negative or fractional numbers, is not modelled.
