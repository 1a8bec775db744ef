# agollo app_config.go in Dafny

This project models the package-level core of agollo's `app_config.go`. agollo is a Go client for the Apollo configuration service. The model covers:

- the package variables: `refresh_interval`, the tuning constants and the loaded `AppConfig`;
- `initRefreshInterval` and `initCommon`, which read the `apollo.refreshInterval` environment variable and parse it with `strconv.Atoi`;
- `initConfig`, which loads `app.properties`, stores the resulting `AppConfig` or panics;
- the retry loop of `syncServerIpList`, which asks the services-config endpoint at most five times;
- the three URL builders `getConfigUrl`, `getNotifyUrl` and `getServicesConfigUrl`, together with `url.QueryEscape` (and `url.PathEscape`, for the corrected config URL).

Go strings are byte strings. They are modelled as `Bytes`, a `seq<Byte>` where a `Byte` is a `char` below 256, in every module: the environment, the URLs, the strconv input and the error texts.

Files:
- `wrappers.dfy`: the `Option` and `Result` datatypes.
- `bytes.dfy`: splitting and joining byte strings.
- `url_escape.dfy`: Go's `net/url` escaping in its two modes: query component (`url.QueryEscape`, `url.QueryUnescape`) and path segment (`url.PathEscape`, `url.PathUnescape`).
- `http_url.dfy`: how a server splits an `http://` URL into host, path segments and form parameters (section 3 of RFC 3986).
- `apollo_urls.dfy`: the three URL builders, and how the config service reads each URL back.
- `strconv.dfy`: `strconv.Atoi` on 64-bit `int`, fast path and `ParseInt`/`ParseUint` slow path, with `Itoa` as its inverse.
- `settings.dfy`: the constants and the `AppConfig` record.
- `agollo.dfy`: the package state as a class, and the operations that assign it or read it.

`client.Get` is modelled as an oracle `get(url, attempt)`: the response the n-th attempt of one `syncServerIpList` call receives. `loadJsonConfig` is an oracle from a file name to its result. The environment is a map from variable names to values. The release key of the current Apollo config and `getInternal()` are passed in as parameters.

The Go `syncServerIpList` returns nothing. The model's method returns a `SyncReport` that records what the call did:
- it panicked; or
- it returned on a readable 200, after a given number of attempts and a given total time slept; or
- it gave up, with the raw error it logged and the final value of its local `err`.

Behaviour of the code worth knowing:
- A 304 Not Modified answer is not treated specially (`app_config.go:129-145`). It takes the `default` branch like every other non-200 status: it uses up one attempt and sleeps `on_error_retry_interval`. An implementation could instead let 304 end the loop without consuming a retry; this one does not. `Agollo.NotModifiedEveryTime` proves that a server answering 304 every time gets all five attempts and five one-second sleeps, logs a nil error, and leaves "Over Max Retry Still Error!" in `err`.
- An invalid refresh-interval override does not stop startup. `initCommon` discards the error that `initRefreshInterval` returns (`app_config.go:57-60`), so the previous interval stays (`Agollo.Package.InitCommon`).
- On exhaustion, the code logs the last attempt's raw error, nil included (`app_config.go:150`). Only afterwards does it replace a nil `err` by "Over Max Retry Still Error!" (`app_config.go:151-153`). That value is neither logged nor returned, and nothing reads it; the report records it as the final value of `err`.
- `time.Duration(interval)` counts nanoseconds. An override of `"300"` therefore sets an interval of 300 ns, not 300 seconds. The model keeps the nanoseconds.
- `getConfigUrl` escapes the three path segments with `url.QueryEscape`, which writes a space as `+`. In a path `+` is a literal plus, so a space in an identity field does not survive the trip (see Findings).

## Model

| member | source | states |
|---|---|---|
| Agollo.Package.SyncServerIpList | app_config.go:98-153 | Panics exactly when no AppConfig is loaded. Otherwise it makes at most 5 attempts against the services-config URL. It returns at the first attempt that gets status 200 and reads its body, and every earlier attempt failed. The time slept is one on_error_retry_interval per non-200 attempt (304 included). If every attempt fails, it reports 5 attempts, logs the last attempt's raw error (nil included), and leaves in `err` that error, or "Over Max Retry Still Error!" when it is nil |
| Agollo.NotModifiedEveryTime | app_config.go:114-153 | A server answering 304 every time uses up all 5 attempts, sleeps 5 seconds in total, logs a nil error and leaves the generic error in `err`: 304 is not a terminal success |
| Agollo.AllNotModified | app_config.go:129-145 | Each 304 attempt counts as a non-200 attempt that sleeps, is not a success and leaves no error behind |
| Agollo.Non200Count | app_config.go:137-144 | The number of sleeping attempts among the first n is at most n. It equals n exactly when every one of those attempts got a non-200 status |
| Agollo.Package.InitRefreshInterval | app_config.go:160-171 | An empty or unset apollo.refreshInterval changes nothing and returns no error. A value Atoi accepts sets refresh_interval to that many nanoseconds. Any other value returns exactly the error Atoi returned for it and leaves the interval unchanged |
| Agollo.Package.InitCommon | app_config.go:57-60 | A valid override sets the interval. An invalid one leaves the previous interval, because the error is discarded |
| Agollo.Package.InitConfig | app_config.go:62-69 | The config loaded from app.properties is stored. A load error panics with that error, and appConfig is left nil |
| Agollo.Package.constructor | app_config.go:17-40 | The package starts with a 5-minute refresh interval and no AppConfig |
| Strconv.Atoi | app_config.go:163 | Succeeds exactly on an optionally signed, non-empty digit string whose value fits in a 64-bit int, and returns that value. Otherwise the error names Atoi and the whole input; it is ErrRange for a decimal out of range or when the leading digits pass 2^64-1 before the first bad byte, and ErrSyntax otherwise |
| Strconv.AtoiFastOutcome | app_config.go:163 | Atoi's path for inputs of 1 to 18 bytes accepts exactly the signed decimals, all of which fit, and fails only with ErrSyntax |
| Strconv.ScanDigitsOutcome | app_config.go:163 | ParseUint's digit scan fails with ErrRange exactly when the run of leading digits passes 2^64-1, otherwise with ErrSyntax exactly when a non-digit follows, and otherwise yields the value |
| Strconv.ParseIntOutcome | app_config.go:163 | ParseInt accepts exactly the signed decimals in int64 range with their value, and fails with ErrRange or ErrSyntax by the same rule as Atoi |
| Strconv.AtoiItoa | app_config.go:163 | Every 64-bit int written in decimal is read back by Atoi as itself |
| Strconv.AtoiRejectsNonDecimal | app_config.go:163-166 | A string that is not a signed decimal, with at most 19 leading digits, is rejected with a syntax error naming it |
| Strconv.AtoiOverflowBeforeBadByte | app_config.go:163-166 | 21 or more leading digits, the first not zero, give ErrRange whatever follows, as in "100000000000000000000x" |
| Strconv.AccumulateValue | app_config.go:163 | Folding the digits left to right gives the positional value of the digit string |
| Strconv.FormatNatValue | app_config.go:163 | The decimal rendering of a natural number is a digit string whose value is that number |
| UrlEscape.Escape | app_config.go:177-180 | The escaped value holds only bytes the mode keeps, '%' and (query mode) '+'. It is between one and three times as long as the input. It equals the input exactly when the mode keeps every input byte |
| UrlEscape.QueryEscapedHasNoDelimiters | app_config.go:175-189 | A query-escaped value contains none of / ? & = # : ; or space, so it cannot end a path segment or a query parameter |
| UrlEscape.PathEscapedHasNoDelimiters | app_config.go:177-179 | A path-escaped value contains none of / ? # ; , or space, so it stays within one path segment |
| UrlEscape.Unescape | app_config.go:177-180 | Decoding never lengthens a value. If decoding fails, the error is one to three bytes starting with '%'. A value without '%' always decodes |
| UrlEscape.UnescapeFailsAtFirstBadEscape | app_config.go:177-180 | Decoding fails exactly when some '%' is not followed by two hex digits, and the error is the first such escape of the input, cut to at most three bytes, as url.EscapeError reports it |
| UrlEscape.UnescapeEscape | app_config.go:177-180 | In either mode, unescaping an escaped value gives back the original bytes |
| UrlEscape.EscapeInjective | app_config.go:177-180 | Distinct values escape to distinct strings |
| UrlEscape.UnescapeVerbatim | app_config.go:181 | A value without '%' (and, in query mode, without '+') decodes to itself |
| UrlEscape.UnescapeRejectsBadPercent | app_config.go:177-180 | Appending a '%' not followed by two hex digits to any value that decodes makes decoding fail, so a bad escape is refused wherever it stands |
| UrlEscape.UnescapeEscapeByte | app_config.go:177-180 | Each escaped byte, followed by any remainder, decodes back to that byte followed by the decoding of the remainder |
| UrlEscape.SpacesAsPlus | app_config.go:177-179 | Same length as the input, each space replaced by '+', everything else kept; equal to the input exactly when the input has no space |
| UrlEscape.PathUnescapeQueryEscaped | app_config.go:177-179 | A query-escaped value decoded as a path segment gives the original with each space turned into '+' |
| ApolloUrls.ConfigUrlShape | app_config.go:173-182 | getConfigUrl parses with the configured address as host and no fragment. Its path segments are exactly configs and the escaped appId, cluster and namespace. Its parameters are exactly releaseKey, then ip |
| ApolloUrls.NotifyUrlShape | app_config.go:184-190 | getNotifyUrl parses with path /notifications/v2 and exactly the parameters appId, cluster and notifications, in that order, whatever the values hold |
| ApolloUrls.ServicesConfigUrlShape | app_config.go:192-197 | getServicesConfigUrl parses with path /services/config and exactly the parameters appId, then ip |
| ApolloUrls.ConfigUrlReadBack | app_config.go:173-182 | The config service reads back exactly the host, release key and client ip, and the appId, cluster and namespace with every space turned into '+' |
| ApolloUrls.ConfigUrlRoundTrip | app_config.go:173-182 | For identity fields without spaces the config service reads back exactly the host, appId, cluster, namespace, release key and client ip |
| ApolloUrls.ConfigUrlSpaceReadAsPlus | app_config.go:175-179 | The appId "my app" is read back as "my+app", which differs from what was sent |
| ApolloUrls.PathEscapedConfigUrlRoundTrip | app_config.go:175-181 | With url.PathEscape on the three path segments, the config service reads back exactly every field, spaces included |
| ApolloUrls.NotifyUrlRoundTrip | app_config.go:184-190 | The config service reads back exactly the host, appId, cluster and notifications |
| ApolloUrls.ServicesConfigUrlRoundTrip | app_config.go:192-197 | The config service reads back exactly the host, appId and client ip |
| ApolloUrls.ConfigFormatRead | app_config.go:175 | Path segments that decode as path segments and parameter values that decode as query components are read back as what they decode to from the config template |
| ApolloUrls.NotifyFormatRead | app_config.go:185 | The same for the notifications template, whose values are all query components |
| ApolloUrls.ServicesConfigFormatRead | app_config.go:193 | The same for the services-config template |
| ApolloUrls.UnescapeAll | app_config.go:177-181 | A list of values decodes exactly when each one decodes, elementwise |
| HttpUrl.ParseComposed | app_config.go:175 | `http://` + host + path + `?` + query parses back into that host, path and query |
| HttpUrl.ParamsQueryOf | app_config.go:175 | Joining key=value fields with '&' and splitting them again gives back the same parameters, in order |
| HttpUrl.SplitPathOf | app_config.go:175 | A path built from '/'-free segments splits back into those segments |
| GoBytes.SplitJoin | app_config.go:175 | Joining parts free of the delimiter and splitting the result gives back the parts |

The builders and the accessor carry no contract of their own; lemmas state their properties. `ApolloUrls.ConfigUrl` models getConfigUrl (app_config.go:173-182), and `ConfigUrlShape`, `ConfigUrlReadBack`, `ConfigUrlRoundTrip` and `ConfigUrlSpaceReadAsPlus` are about it. `ApolloUrls.NotifyUrl` models getNotifyUrl (app_config.go:184-190), with `NotifyUrlShape` and `NotifyUrlRoundTrip`. `ApolloUrls.ServicesConfigUrl` models getServicesConfigUrl (app_config.go:192-197), with `ServicesConfigUrlShape` and `ServicesConfigUrlRoundTrip`. `Agollo.Package.GetAppConfig` models GetAppConfig (app_config.go:156-158); `SyncServerIpList` reads the configuration through it. `Agollo.FinalError` is the reference definition of the final `err` (app_config.go:151-153), used by the `SyncServerIpList` contract.

The reader side (`GoBytes.Split`, `HttpUrl.Parse`, `HttpUrl.Params`, `ApolloUrls.ReadConfigUrl` and its siblings) stands in for the config service and has no counterpart in `app_config.go`; it is what the shape and round-trip lemmas are stated against.

## Findings

| source | as written | input that shows it | evidently intended | confidence | as-written member | corrected member |
|---|---|---|---|---|---|---|
| app_config.go:175-179 | the appId, cluster and namespace path segments are escaped with url.QueryEscape, which writes a space as '+'; a path decodes '+' as itself | AppId "my app": the config service reads appId "my+app" | escape path segments with url.PathEscape, which writes a space as %20 | medium, not executed | ApolloUrls.ConfigUrlSpaceReadAsPlus | ApolloUrls.PathEscapedConfigUrlRoundTrip |

`ConfigUrl` keeps the code as written; `PathEscapedConfigUrl` is the corrected builder.

## Left out

- client.Get, the HTTP client's 1-second timeout and ioutil.ReadAll: these are network I/O. Each attempt's outcome is an oracle argument of `SyncServerIpList`. The timeout constant `connect_timeout` is not modelled.
- time.Sleep: each sleep adds `OnErrorRetryInterval` to the reported time slept rather than being performed.
- seelog logging is left out, including the debug log of the last body read before giving up. The body read on a successful attempt is discarded by the code and is not kept in the report either.
- initServerIpList: the 20-minute timer (`refresh_ip_list_interval`) that calls syncServerIpList forever is timing and concurrency, and is left out with its constant.
- The goroutine started by initConfig, and updateApolloConfig, are concurrency and code outside app_config.go.
- loadJsonConfig is file I/O outside app_config.go. It is an oracle argument of `InitConfig`, which calls it on `AppConfigFileName`.
- GetCurrentApolloConfig().ReleaseKey and getInternal() live outside app_config.go. They are parameters of the URL builders.
- init() only calls initCommon then initConfig, and it is not a separate member.
- The long-poll intervals, read timeout and cache-size constants are declared in app_config.go but not used by any of the modelled functions, and are left out.
- ApolloUrls.ConfigUrlRoundTrip: holds only for an appId, cluster and namespace without spaces, because the code query-escapes path segments; `ConfigUrlReadBack` states what is read back in general.
- ApolloUrls.ConfigUrlRoundTrip, ApolloUrls.ServicesConfigUrlRoundTrip, ApolloUrls.ConfigUrlReadBack, ApolloUrls.ConfigUrlSpaceReadAsPlus and ApolloUrls.PathEscapedConfigUrlRoundTrip assume that the host has no '/', '?' or '#' and that the client ip has no '&', '#', '%' or '+', because the code inserts both without escaping. ApolloUrls.NotifyUrlRoundTrip and ApolloUrls.NotifyFormatRead assume the same of the host only. ApolloUrls.ConfigFormatRead and ApolloUrls.ServicesConfigFormatRead assume the same of the host, and that the ip has no '&' or '#' and decodes to itself. The shape lemmas assume only that the host has no '/', '?' or '#' and that the ip has no '&' or '#'.
- The Go standard library's strconv source is not part of this model. Atoi, ParseInt and ParseUint follow the Go standard library's implementation for a 64-bit int, not only its documentation. Two details come from the implementation alone: the fast path for inputs under 19 bytes, and ErrRange winning when the leading digits overflow before a later bad byte. Go's UTF-8 string encoding is not modelled.
