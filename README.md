# efihub-client, modelled in Dafny

The efihub-client package is a Laravel SDK for the EFIHUB REST service. This project models its core:

- **The base client (`EfihubClient`).** It keeps an OAuth client-credentials token in the application cache under `efihub_access_token` for 55 minutes. It joins the configured base URL and an endpoint with exactly one slash. It sends each API request with the token. When the first answer is exactly 401, it forgets the token, fetches a new one and sends the request once more.
- **The domain clients.**
  - `StorageClient`: upload, url, exists, size, delete.
  - Both `WebsocketClient`s.
  - `SSOClient`: login, user data.
  - `WhatsappClient`: text and attachment messages, to a number or to a group.

  Each domain client builds a payload, makes one call through the base client, and reads its answer from the response. The reading uses PHP's `??` chains, `is_string` / `is_bool` / `is_numeric` tests, `(int)` / `(bool)` casts and dot-path lookups into the JSON body.

Modules and files:

| module | file | contents |
|---|---|---|
| `Wrappers` | wrappers.dfy | `Option`, `Result` |
| `Decimal` | decimal.dfy | digit strings and their values |
| `Json` | json.dfy | the decoded body `JValue` and `data_get` dot paths (`Segments`, `Step`, `DataGet`, `JsonAt`) |
| `Php` | php.dfy | `rtrim`/`ltrim`, truthiness, `is_numeric`, the 64-bit `(int)` cast, `??`, `array_merge` |
| `Http` | http.dfy | responses, `successful()` / `failed()`, outgoing requests, exchanges, the shared `success` rule |
| `Efihub` | efihub_client.dfy | the base client: state-step functions and the class `EfihubClient` |
| `Storage` | storage_client.dfy | `StorageClient` |
| `Websocket` | websocket_client.dfy | `Efihub\WebsocketClient` (the response is returned as is) |
| `ModuleWebsocket` | modules_websocket_client.dfy | `Efihub\Modules\WebsocketClient` (boolean answer) |
| `Sso` | modules_sso_client.dfy | `SSOClient` |
| `Whatsapp` | modules_whatsapp_client.dfy | `WhatsappClient` |

**The base client's state** is a `State`. It holds:

- the cache entry under the token key: a value and the time it expires;
- an integer clock;
- the log of every exchange: each request sent, with the response it got.

Given that state, the number and order of requests can be observed. The remote side is a transport function from (position in the log, request) to a response. It can therefore be any script of answers.

**Spec functions and the class.** Each base-client operation is a function from the old state to the new state and a result:

- `TokenStep` is `getAccessToken`;
- `RequestStep` is `request`, for the joined URL.

The class `EfihubClient` performs the same steps in place on its fields. Each of its methods is proved to leave `Snapshot()` and its result equal to the matching function. The lemmas about those functions carry the protocol's properties.

**The domain clients** are classes that hold the base client. Each method is proved to leave the base client in the state `RequestStep` (or, for uploads and attachments, one `SendStep`) gives, and to return a pure reading function of the response received. The lemmas about those reading functions carry the answer rules.

A failed token fetch throws in the source. In the model it is `Err(TokenFetchFailed)`, and every caller passes it up unchanged.

## Model

| member | source | states |
|---|---|---|
| `Efihub.JoinUrl` | src/EfihubClient.php:30 | `rtrim(base, '/') . '/' . ltrim(endpoint, '/')`; its properties are `JoinUrlOneSlash` and `JoinUrlIgnoresSlashes` |
| `Efihub.CachedToken` | src/EfihubClient.php:12 | what `Cache::remember` finds under the key: a live entry's value when it is not null, else a miss |
| `Efihub.Forget` | src/EfihubClient.php:35 | `Cache::forget`: the entry is gone, nothing else changes |
| `Efihub.SendStep` | src/EfihubClient.php:29-32 | one request through the transport, appended with its response to the log |
| `Efihub.FetchStep` | src/EfihubClient.php:13-21 | the `remember` callback: the token form POST, an error on 4xx/5xx, otherwise `access_token` cached for 3300 s and returned |
| `Efihub.TokenStep` | src/EfihubClient.php:10-23 | `getAccessToken`: the cached token, or on a miss `FetchStep`; its properties are the token lemmas below |
| `Efihub.RetryStep` | src/EfihubClient.php:34-42 | after a 401: forget, take a fresh token, resend once |
| `Efihub.RequestStep` | src/EfihubClient.php:25-45 | `request` for the joined URL: token, one send, and `RetryStep` exactly on 401; its properties are `RequestAttempts`, `RequestWithout401` and `RequestRetryTrace` |
| `Efihub.JoinUrlOneSlash` | src/EfihubClient.php:30 | the URL is the base without its trailing slashes, one `/`, and the endpoint without its leading slashes |
| `Efihub.JoinUrlIgnoresSlashes` | src/EfihubClient.php:39 | slashes padded onto the end of the base or the start of the endpoint do not change the URL |
| `Efihub.JoinUrlExamples` | src/EfihubClient.php:30 | `https://x/` + `/y`, `https://x` + `y` and `https://x/` + `y` all join to `https://x/y` |
| `Efihub.AccessTokenPath` | src/EfihubClient.php:21 | the token read from the response is `json('access_token')` |
| `Efihub.CachedTokenReused` | src/EfihubClient.php:12 | a live, non-null cached token is returned, nothing is sent and the state does not change |
| `Efihub.TokenMissSendsForm` | src/EfihubClient.php:12-17 | on a miss exactly one request is logged: a form POST to the token URL with exactly `client_id`, `client_secret` and `grant_type=client_credentials` |
| `Efihub.TokenFailureCachesNothing` | src/EfihubClient.php:19 | a 4xx/5xx token answer is an error and leaves the cache as it was |
| `Efihub.TokenMissStoresToken` | src/EfihubClient.php:12-21 | any other token answer (3xx included) has its `access_token` returned and cached until `now + TokenTtl` (3300 s) |
| `Efihub.FetchedTokenLivesForTtl` | src/EfihubClient.php:12 | a freshly fetched non-null token is served from the cache for exactly the next 3300 seconds |
| `Efihub.ForgetForcesFetch` | src/EfihubClient.php:35-36 | after `Cache::forget` the next token call fetches from the token endpoint, not from the cache |
| `Efihub.TokenStepNoAttempt` | src/EfihubClient.php:10-23 | getting a token adds at most one exchange, never an API request, and does not move the clock |
| `Efihub.RequestWithout401` | src/EfihubClient.php:29-34 | when the first answer is not 401, exactly one API request is sent and its response is returned unchanged; the cache is never cleared |
| `Efihub.RequestAfter401` | src/EfihubClient.php:34-42 | when the first answer is 401, the rest of the request is the retry step after that first exchange |
| `Efihub.RetryTokenFailure` | src/EfihubClient.php:35-36 | a retry whose new token fetch fails logs only that fetch, returns the error and leaves the cache empty |
| `Efihub.RetryResends` | src/EfihubClient.php:35-44 | a retry fetches a new token, caches it, sends the same verb, URL and options with it once more, and returns that answer whatever its status |
| `Efihub.RequestRetryTrace` | src/EfihubClient.php:25-45 | on a first 401 with a successful re-fetch, the log since the token step is the first attempt, a token fetch and a second attempt with the same verb, URL and options and the fresh token; the new token is cached and the result is the second response |
| `Efihub.RetryAttempts` | src/EfihubClient.php:35-44 | the retry sends at most one API request, and a successful result is its response |
| `Efihub.RequestAttempts` | src/EfihubClient.php:25-45 | every request sends at most two API requests, all with the same verb, URL and options. A second is sent only after a 401. An answer other than 401 ends the request. A successful result is the last answer |
| `Efihub.FirstExchange` | src/EfihubClient.php:29-32 | the first API request goes with the requested verb, URL and options |
| `Efihub.Attempts` | src/EfihubClient.php:29-41 | the API attempts in a log are API requests, and there are no more of them than exchanges |
| `Efihub.AttemptsAppend` | src/EfihubClient.php:29-41 | the attempts of two logs in a row are the attempts of each, concatenated |
| `Efihub.EfihubClient.Tick` | src/EfihubClient.php:12 | the clock the cache's expiry is read against moves forward; nothing else changes |
| `Efihub.EfihubClient.Send` | src/EfihubClient.php:29-32 | the in-place `SendStep`: one transport call, logged |
| `Efihub.EfihubClient.PostMultipart` | src/StorageClient.php:26-28 | the call of the undefined `postMultipart`: one logged exchange of (endpoint, fields, parts) |
| `Efihub.EfihubClient.GetAccessToken` | src/EfihubClient.php:10-23 | the method leaves the state and returns the result that `TokenStep` gives |
| `Efihub.EfihubClient.Request` | src/EfihubClient.php:25-45 | the method leaves the state and returns the result that `RequestStep` gives for the joined URL |
| `Efihub.EfihubClient.Get` | src/EfihubClient.php:47-50 | `request` with GET, the endpoint and the options unchanged |
| `Efihub.EfihubClient.Post` | src/EfihubClient.php:52-55 | `request` with POST, the endpoint and the options unchanged |
| `Efihub.EfihubClient.Put` | src/EfihubClient.php:57-60 | `request` with PUT, the endpoint and the options unchanged |
| `Efihub.EfihubClient.Delete` | src/EfihubClient.php:62-65 | `request` with DELETE, the endpoint and the options unchanged |
| `Php.TrimRight` | src/EfihubClient.php:30 | `rtrim(s, c)`; its properties are `TrimRightShape` and `TrimRightPadded` |
| `Php.TrimLeft` | src/EfihubClient.php:30 | `ltrim(s, c)`; its properties are `TrimLeftShape` and `TrimLeftPadded` |
| `Php.TrimRightShape` | src/EfihubClient.php:30 | `rtrim(s, '/')` is a prefix of `s`, only slashes are removed, and it does not end with a slash |
| `Php.TrimLeftShape` | src/EfihubClient.php:30 | `ltrim(s, '/')` is a suffix of `s`, only slashes are removed, and it does not start with a slash |
| `Php.Coalesce` | src/StorageClient.php:50-52 | `a ?? b ?? ...` is null exactly when every candidate is null, and otherwise the first non-null one |
| `Php.CoalesceAt` | src/StorageClient.php:87-91 | the chain's value is its first non-null candidate; later ones are never consulted |
| `Php.ArrayMerge` | src/StorageClient.php:24 | `array_merge` has the keys of both arrays, and the later array's value wins on a shared key |
| `Php.IntCast` | src/StorageClient.php:93 | `(int)` keeps an integer, and a numeric string's cast lies within the 64-bit bounds |
| `Php.IntCastDigits` | src/StorageClient.php:93 | for a digit run `d`, `(int)` of `d` and of `+d` is `d` read in base ten (leading zeros included), and of `-d` its negation, each clamped to the 64-bit bounds |
| `Php.IntCastSaturates` | src/StorageClient.php:93 | a digit run worth more than `PHP_INT_MAX` casts to `PHP_INT_MAX`, and its `-` spelling to `PHP_INT_MIN` |
| `Php.IntCastSignedExamples` | src/StorageClient.php:93 | `"+007"` casts to 7 and `"-0"` to 0 |
| `Php.IntCastSaturationExamples` | src/StorageClient.php:93 | twenty nines cast to `PHP_INT_MAX`, and with a minus to `PHP_INT_MIN` |
| `Php.IsNumeric` | src/StorageClient.php:93 | `is_numeric`: an integer, or a string of decimal digits with an optional sign |
| `Php.Truthy` | src/StorageClient.php:73 | `(bool)`: false for null, `false`, `0`, `""`, `"0"` and empty arrays or objects, true otherwise |
| `Php.IntCastShowInt` | src/StorageClient.php:93 | every 64-bit integer, written in decimal, is numeric and casts back to itself |
| `Decimal.ValueOfShow` | src/StorageClient.php:93 | reading back a number's decimal spelling gives the number |
| `Decimal.Pow10Nineteen` | src/StorageClient.php:93 | `10^19`, the first power of ten above `PHP_INT_MAX`, so any 20-digit run without a leading zero saturates |
| `Decimal.DigitsValueLowerBound` | src/StorageClient.php:93 | a digit string without a leading zero is worth at least `10^(length - 1)` |
| `Json.Segments` | src/StorageClient.php:50 | `explode('.', key)`: never empty; `ImplodeSegments` and `SegmentsDot` relate it to the key |
| `Json.DataGet` | src/StorageClient.php:50 | `data_get` along a path: each step an object member or a list index, null once a step is missing |
| `Json.JsonAt` | src/StorageClient.php:50 | `$response->json(key)`: `DataGet` along the key's segments |
| `Json.Step` | src/StorageClient.php:50 | one `data_get` step: an object's member or null; nothing but objects and lists has members |
| `Json.JsonAtDot` | src/StorageClient.php:50 | `json('a.b')` is `json('b')` applied to `json('a')` |
| `Json.JsonAtPair` | src/StorageClient.php:50 | `json('a.b')` with dot-free halves is two steps |
| `Json.DataGetFound` | src/StorageClient.php:50 | a value found at a path means every step above it was an object or a list |
| `Json.ImplodeSegments` | src/StorageClient.php:50 | splitting a key on dots and joining it again gives the key |
| `Json.SegmentsDot` | src/StorageClient.php:50 | the segments of `a.b` are those of `a` followed by those of `b` |
| `Http.SuccessFlag` | src/StorageClient.php:103-108 | the answer is false exactly when the status is not 2xx or the body's `success` is `false` |
| `Storage.PathOption` | src/StorageClient.php:44 | the query options are exactly `{path: path}` |
| `Storage.UploadFields` | src/StorageClient.php:24 | the upload form has `path` and the extra fields; an extra `path` overrides the destination |
| `Storage.UploadOf` | src/StorageClient.php:30-34 | `None` (PHP's `false`) exactly on a non-2xx status, otherwise `Some` of `data.url`; a found JSON `false` is `Some(JBool(false))`, which PHP returns as the same `false` |
| `Storage.UploadReadsDataUrl` | src/StorageClient.php:30-34 | a 2xx upload answers `json('data.url')` |
| `Storage.StorageClient.Upload` | src/StorageClient.php:22-35 | one multipart post to `/storage/upload` with the merged form and the file under the part `file`, read by `UploadOf` |
| `Storage.UrlOf` | src/StorageClient.php:45-52 | null on non-2xx. Otherwise `data.url` if found, else `url` if found, else `data` when it is a string, else null, each only when those before it are missing |
| `Storage.UrlReadsChain` | src/StorageClient.php:50-52 | the answer on 2xx is the `??` chain over the keys as the source writes them |
| `Storage.UrlFromDataString` | src/StorageClient.php:52 | `{"data": "<url>"}` answers that string |
| `Storage.StorageClient.Url` | src/StorageClient.php:42-53 | a GET to `/storage/url` with `{path}`, read by `UrlOf` |
| `Storage.ExistsOf` | src/StorageClient.php:62-73 | false on 404 and on every other non-2xx status; true only when some candidate is truthy |
| `Storage.ExistsReadsChain` | src/StorageClient.php:69-73 | on 2xx the answer is `(bool)` of `exists ?? data.exists ?? data` |
| `Storage.ExistsDecidedByFirstFound` | src/StorageClient.php:69-73 | the first candidate present decides the answer, even when it is `false` or `0` |
| `Storage.ExistsNested` | src/StorageClient.php:70 | `{"data": {"exists": true}}` answers true |
| `Storage.StorageClient.Exists` | src/StorageClient.php:59-74 | a GET to `/storage/exists` with `{path}`, read by `ExistsOf` |
| `Storage.SizeOf` | src/StorageClient.php:83-93 | null on non-2xx; a size is always the `(int)` of a numeric candidate |
| `Storage.SizeReadsChain` | src/StorageClient.php:87-93 | on 2xx the answer is `is_numeric ? (int) : null` of the five-key `??` chain as written |
| `Storage.SizeDecidedByFirstFound` | src/StorageClient.php:87-93 | the first candidate present decides; a non-numeric one gives null even if a later one is numeric |
| `Storage.SizeReadsDecimalString` | src/StorageClient.php:89-93 | `{"size": "<n>"}` answers `n` for every 64-bit `n` |
| `Storage.SizeExampleNumeric` | src/StorageClient.php:89-93 | `{"size": "1024"}` answers 1024 |
| `Storage.SizeExampleNotNumeric` | src/StorageClient.php:89-93 | `{"size": "abc"}` answers null |
| `Storage.StorageClient.Size` | src/StorageClient.php:80-94 | a GET to `/storage/size` with `{path}`, read by `SizeOf` |
| `Storage.DeleteOf` | src/StorageClient.php:103-108 | true exactly on 2xx with a `success` that is not `false` |
| `Storage.DeleteDefaultsToTrue` | src/StorageClient.php:108 | a 2xx answer whose `success` is not a boolean is true |
| `Storage.StorageClient.Delete` | src/StorageClient.php:100-109 | a DELETE to `/storage/delete` with `{path}`, read by `DeleteOf` |
| `Websocket.DispatchPayload` | src/WebsocketClient.php:27-31 | the payload has `channel`, `event`, `data` and the extra keys; the extra values win, the base values stand otherwise |
| `Websocket.DispatchPayloadPlain` | src/WebsocketClient.php:27-31 | with no extra fields the payload is exactly the three base keys |
| `Websocket.DispatchKeepsFailures` | src/WebsocketClient.php:33 | a first answer that is not 401, 4xx and 5xx included, is the result as received |
| `Websocket.WebsocketClient.Dispatch` | src/WebsocketClient.php:25-34 | one request protocol run of a POST of the payload to `/websocket/dispatch`; its response is the result |
| `ModuleWebsocket.DispatchOf` | src/Modules/WebsocketClient.php:43-48 | true exactly on 2xx with a `success` that is not `false`; a boolean `success` is the answer |
| `ModuleWebsocket.DispatchReadsSuccess` | src/Modules/WebsocketClient.php:47-48 | on 2xx the answer is `is_bool(json('success')) ? json('success') : true` |
| `ModuleWebsocket.WebsocketClient.Dispatch` | src/Modules/WebsocketClient.php:34-49 | the same POST to `/websocket/dispatch`, read by `DispatchOf` |
| `Sso.LoginPayload` | src/Modules/SSOClient.php:28-31 | the login payload is exactly `{client_id: configured id}` |
| `Sso.LoginOf` | src/Modules/SSOClient.php:37-43 | `Some` exactly when the status is 2xx and `data` is an object with a non-null `authorization_url`, which is the answer; `None` is PHP's `false`, and a found JSON `false` (`Some(JBool(false))`) is that same `false` in PHP |
| `Sso.LoginReadsAuthorizationUrl` | src/Modules/SSOClient.php:42-43 | on 2xx the answer is `json('data.authorization_url')` when found and `false` otherwise |
| `Sso.SSOClient.Login` | src/Modules/SSOClient.php:26-44 | a POST of the payload to `/sso/authorize`, read by `LoginOf` |
| `Sso.UserDataOf` | src/Modules/SSOClient.php:60-68 | `None` (PHP's `false`) exactly on non-2xx; otherwise `Some` of the body's `data` as it is, so a `data` of JSON `false` is `Some(JBool(false))`, the same `false` in PHP |
| `Sso.UserDataReadsData` | src/Modules/SSOClient.php:65-68 | on 2xx the user is `json('data')` |
| `Sso.SSOClient.UserData` | src/Modules/SSOClient.php:52-69 | a GET to `/sso/user` with `{redirect_token}`, read by `UserDataOf` |
| `Whatsapp.MessagePayload` | src/Modules/WhatsappClient.php:28-34 | exactly the keys `sender`, `to`, `message`, `ref_id`, `ref_url`, each holding its argument |
| `Whatsapp.AttachmentFields` | src/Modules/WhatsappClient.php:87-91 | exactly the keys `sender`, `to`, `message` |
| `Whatsapp.AttachmentFieldsAreMessageText` | src/Modules/WhatsappClient.php:87-91 | the attachment fields are the message payload without its two references |
| `Whatsapp.SentOf` | src/Modules/WhatsappClient.php:39-43 | true exactly on a 2xx status |
| `Whatsapp.SentIgnoresBody` | src/Modules/WhatsappClient.php:39-43 | the body never changes the answer |
| `Whatsapp.WhatsappClient.SendMessage` | src/Modules/WhatsappClient.php:26-44 | a POST of the payload to `/whatsapp/send_message` (references null by default), read by `SentOf` |
| `Whatsapp.WhatsappClient.SendGroupMessage` | src/Modules/WhatsappClient.php:56-74 | the same payload POSTed to `/whatsapp/group/send_message` |
| `Whatsapp.WhatsappClient.SendAttachment` | src/Modules/WhatsappClient.php:85-103 | one multipart post to `/whatsapp/send_message_with_attachment` with the file under the part `attachment` |
| `Whatsapp.WhatsappClient.SendGroupAttachment` | src/Modules/WhatsappClient.php:114-132 | the same, to `/whatsapp/group/send_message_with_attachment` |

## Left out

- `postMultipart`: `StorageClient` and `WhatsappClient` call `EfihubClient::postMultipart`, but src/EfihubClient.php does not define it, so its body is not part of this model. `Efihub.EfihubClient.PostMultipart` records one exchange of (endpoint, fields, parts) and returns its response. It takes no token and makes no retry, and the file-spec normaliser and its errors are not modelled.
- HTTP itself, headers and the bearer token encoding: the transport is an abstract function of the log position and the request.
- Laravel's `Cache` is global: in PHP every `EfihubClient` instance (and every process) shares one `efihub_access_token` entry, so one instance's fetch or forget is seen by the others. In the model each `EfihubClient` object holds its own `cache` field, so sharing between instances is not captured.
- Laravel's `Cache` store: only the client's own key is modelled, as one optional entry with an integer expiry. An entry is live while the clock is before its expiry. A cached null counts as a miss, as `Cache::remember` treats it. The clock moves only through `Tick`.
- Concurrency: racing token refreshes from several processes are out of scope; the model is single-threaded.
- Configuration and wiring: src/EfihubServiceProvider.php, src/Facades/Efihub.php and config/efihub.php are not part of this model. The four `config('efihub.*')` values are a constant `Config` with string fields.
- PHP return-type checks: `getAccessToken` is declared `string`, `upload` `string|false` and `url` `?string`. The files do not declare `strict_types`, so PHP converts a found integer or boolean to a string, and raises a `TypeError` for an array, or for null where null is not allowed (`getAccessToken`, `upload`). The model returns the JSON value found, unconverted. `login` and `userData` declare no return type.
- Storage.UploadOf, Sso.LoginOf, Sso.UserDataOf: PHP's failure `false` is `None`. A JSON `false` found on a 2xx answer is `Some(JBool(false))`, although PHP returns it as the same `false`. The model keeps the two apart, so the caller's inability to tell them apart is not captured.
- Php.IsNumeric: covers integers and optionally signed decimal-digit strings only. Floats, exponent strings such as `1e3`, and whitespace-padded strings are not modelled, because JSON numbers are integers here. JSON integers beyond 64 bits, which PHP decodes as floats, are not modelled. JSON decoding itself is not modelled: a body that is not JSON is `JNull`.
- Php.ArrayMerge: string keys only. Caller-supplied `$fields` (upload) and `$extra` (both `dispatch`es) may hold a canonical numeric key such as `"5"`. PHP stores it as the integer key 5, and `array_merge` renumbers it (to 0, 1, ...) and appends it instead of overriding. The model keeps such a key as the string `"5"` and merges it like any other.
- Json.DataGet: wildcard segments (`*`, `{first}`, `{last}`) are not modelled.
- Efihub.EfihubClient.Request: the verb is one of four constructors; calling an arbitrary method name on `Http` is not modelled.
- The SDK's type declarations (`string $path`, `array $extra`) are Dafny parameter types. PHP's coercion of arguments of other types is not modelled.
